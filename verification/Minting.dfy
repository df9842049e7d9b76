/** The two minting rails over whole runs: the emission schedule and the review gates. */
module Minting {
  import opened Outcomes
  import opened Integers
  import opened Text
  import opened Types
  import opened Emission
  import opened Ledger
  import opened Escrows
  import opened Jury
  import opened Bonds
  import opened Gates
  import opened Rails
  import opened Machine
  import opened Conservation
  import opened Conserved
  import opened Settlement

  // ---- The schedule over runs ---------------------------------------------

  /** An emission state that follows the schedule of `supply` and `divisor`. */
  predicate FollowsSchedule(stored: Option<EmissionState>, supply: nat, divisor: nat) {
    stored.Some? && OnSchedule(stored.value) && stored.value.maxSupply == supply && stored.value.divisor == divisor
  }

  ghost function OnScheduleOf(supply: nat, divisor: nat): Option<EmissionState> -> bool {
    stored => FollowsSchedule(stored, supply, divisor)
  }

  /** The keeper's emission state follows the schedule. */
  predicate Follows(s: State, supply: nat, divisor: nat) {
    FollowsSchedule(s.emission, supply, divisor)
  }

  lemma ScheduleKeptByMints(supply: nat, divisor: nat)
    ensures KeptByMints(OnScheduleOf(supply, divisor), 1)
  {
    hide OnSchedule, Sync;
    forall stored: Option<EmissionState>, now: UnixTime, amount: U64 |
      FollowsSchedule(stored, supply, divisor)
      && amount <= RemainingScheduled(Sync(stored, now)) && amount <= RemainingEpoch(Sync(stored, now))
      ensures FollowsSchedule(Some(Mine(Sync(stored, now), amount)), supply, divisor)
    {
      SyncOnSchedule(stored, now);
      SyncKeepsTerms(stored, now);
      MineOnSchedule(Sync(stored, now), amount);
    }
  }

  lemma SyncKeepsTerms(stored: Option<EmissionState>, now: UnixTime)
    requires stored.Some? && OnSchedule(stored.value)
    ensures Sync(stored, now).maxSupply == stored.value.maxSupply && Sync(stored, now).divisor == stored.value.divisor
  {
    assert Fill(stored.value, now) == stored.value;
  }

  /** Whatever is mined and whenever, over any run the reward of epoch `k` is the `k`-th reward of a
      schedule fixed by the cap and the divisor alone, and the fair share of what was left; earlier rewards were mined or burned to the unit;
      and mined plus burned stays within the cap. */
  lemma ScheduleOverRuns(env: Env, s: State, txs: seq<Tx>, supply: nat, divisor: nat)
    requires Follows(s, supply, divisor)
    ensures Follows(Run(env, s, txs), supply, divisor)
    ensures var e := Run(env, s, txs).emission.value;
            && e.divisor > 0
            && e.epochScheduled == Schedule(supply, divisor, e.currentEpoch)
            && e.totalMined - e.epochMined + e.totalBurned == ScheduledBefore(supply, divisor, e.currentEpoch)
            && e.totalMined + e.totalBurned <= supply
            && RemainingEpoch(e) <= RemainingScheduled(e)
            && Fair(supply - (e.totalMined - e.epochMined) - e.totalBurned, divisor, e.epochScheduled)
  {
    hide OnSchedule, Fair;
    ScheduleKeptByMints(supply, divisor);
    RunKeeps(env, s, txs, OnScheduleOf(supply, divisor), 1);
    OnScheduleFacts(Run(env, s, txs).emission.value);
    ScheduleIsFair(supply, divisor, Run(env, s, txs).emission.value.currentEpoch);
  }

  lemma OnScheduleFacts(e: EmissionState)
    requires OnSchedule(e)
    ensures e.divisor > 0 && e.epochScheduled == Schedule(e.maxSupply, e.divisor, e.currentEpoch)
    ensures e.totalMined - e.epochMined + e.totalBurned == ScheduledBefore(e.maxSupply, e.divisor, e.currentEpoch)
    ensures e.totalMined + e.totalBurned <= e.maxSupply && RemainingEpoch(e) <= RemainingScheduled(e)
  {
    OnScheduleAccounts(e);
  }

  // ---- Gates over runs ----------------------------------------------------

  /** A gate is sound at block time `clock`: it pays something, each agent answers once, nothing was revealed before the
      commit window closed, and a settled gate paid exactly the answers equal to its consensus. */
  predicate GateSound(g: Gate, clock: int) {
    && g.commitDeadline < g.revealDeadline && g.drip > 0
    && (forall i, j | 0 <= i < j < |g.answers| :: g.answers[i].agent != g.answers[j].agent)
    && (forall i | 0 <= i < |g.answers| && g.answers[i].revealed ::
          clock >= g.commitDeadline && g.answers[i].answer != "")
    && (g.status == GateOpen ==> forall i | 0 <= i < |g.answers| :: !g.answers[i].paid)
    && (g.status == GateSettled ==>
          clock >= g.revealDeadline
          && forall i | 0 <= i < |g.answers| :: g.answers[i].paid == Coherent(g.answers[i], g.consensus))
  }

  /** Everyone who answered has an account, so that the guard on new accounts never refuses a drip. */
  predicate AgentsKnown(accounts: map<Addr, Account>, g: Gate) {
    forall i | 0 <= i < |g.answers| :: g.answers[i].agent in accounts
  }

  ghost predicate GatesSound(s: State, clock: int) {
    forall id | id in s.gates :: GateSound(s.gates[id], clock) && AgentsKnown(s.accounts, s.gates[id])
  }

  lemma GatePut(s: State, t: State, id: nat, clock: int)
    requires GatesSound(s, clock) && id in t.gates && t.gates == s.gates[id := t.gates[id]]
    requires GateSound(t.gates[id], clock) && AgentsKnown(t.accounts, t.gates[id]) && s.accounts.Keys <= t.accounts.Keys
    requires id in s.gates ==> s.gates[id].status == GateOpen
    ensures GatesSound(t, clock)
    ensures forall i | i in s.gates && s.gates[i].status == GateSettled :: i in t.gates && t.gates[i] == s.gates[i]
  {
  }

  /** Gate `id`, still open, has a new record and is sound; nothing else has changed. */
  ghost predicate OneAnswered(s: State, t: State, id: nat, now: int) {
    && id in s.gates && s.gates[id].status == GateOpen && id in t.gates
    && t == s.(gates := s.gates[id := t.gates[id]]) && GateSound(t.gates[id], now) && AgentsKnown(s.accounts, t.gates[id])
  }

  lemma CommitSound(s: State, now: UnixTime, c: Addr, id: nat, commit: string)
    requires Keyed(s) && GatesSound(s, now)
    ensures var r := CommitAnswer(s, now, c, id, commit);
            r.Ok? ==> OneAnswered(s, r.value, id, now)
  {
    hide IsHexSha256;
  }

  lemma RevealSound(env: Env, s: State, now: UnixTime, c: Addr, id: nat, answer: string, salt: string)
    requires Keyed(s) && GatesSound(s, now)
    ensures var r := RevealAnswer(env, s, now, c, id, answer, salt);
            r.Ok? ==> OneAnswered(s, r.value, id, now)
  {
    hide Commitment, EqualFold;
  }

  lemma AnswersSound(env: Env, s: State, now: UnixTime, m: GateMsg)
    requires Keyed(s) && GatesSound(s, now) && (m.MsgCommitAnswer? || m.MsgRevealAnswer?)
    ensures var r := HandleGate(env, s, now, m);
            r.Ok? ==> OneAnswered(s, r.value, m.id, now)
  {
    hide Keyed, GatesSound, CommitAnswer, RevealAnswer, OneAnswered;
    match m
    case MsgCommitAnswer(c, id, commit) => CommitSound(s, now, c, id, commit);
    case MsgRevealAnswer(c, id, answer, salt) => RevealSound(env, s, now, c, id, answer, salt);
  }

  lemma SettledSound(env: Env, s: State, now: UnixTime, c: Addr, id: nat, gold: string, salt: string)
    requires Keyed(s) && GatesSound(s, now)
    ensures var r := SettleGate(env, s, now, c, id, gold, salt);
            r.Ok? ==>
              && id in s.gates && s.gates[id].status == GateOpen && id in r.value.gates
              && r.value.gates == s.gates[id := r.value.gates[id]] && GateSound(r.value.gates[id], now)
              && AgentsKnown(s.accounts, r.value.gates[id])
  {
    hide Winning, Commitment, EqualFold, PayFrom;
    if id in s.gates { PayFromTouchesNoGate(s, now, s.gates[id], Winning(s.gates[id].answers, gold), 0); }
  }

  lemma GateMsgSound(env: Env, s: State, now: UnixTime, m: GateMsg)
    requires Keyed(s) && GatesSound(s, now)
    ensures var r := HandleGate(env, s, now, m);
            r.Ok? ==> GatesSound(r.value, now)
                      && forall id | id in s.gates && s.gates[id].status == GateSettled ::
                           id in r.value.gates && r.value.gates[id] == s.gates[id]
  {
    hide MintReward, Commitment, CheckContribution, Awarded, EqualFold, IsHexSha256, GateSound, SettleGate, CommitAnswer, RevealAnswer;
    var r := HandleGate(env, s, now, m);
    if r.Ok? {
      GatesKeep(env, s, now, m, Anything, 1);
      match m {
        case MsgPostGate(c, uri, hash, gold, drip, max) =>
          PostedSound(env, s, now, c, uri, hash, gold, drip, max);
          GatePut(s, r.value, s.gateSeq, now);
        case MsgSettleGate(c, id, gold, salt) =>
          SettledSound(env, s, now, c, id, gold, salt);
          GatePut(s, r.value, id, now);
        case MsgAwardContribution(c, k) => MintTouchesNoGate(s, now, c, k);
        case _ =>
          AnswersSound(env, s, now, m);
          GatePut(s, r.value, m.id, now);
      }
    }
  }

  lemma PostedSound(env: Env, s: State, now: UnixTime, c: Addr, uri: string, hash: string, gold: string, drip: U64, max: U64)
    requires Keyed(s)
    ensures var r := PostGate(env, s, now, c, uri, hash, gold, drip, max);
            r.Ok? ==>
              && s.gateSeq !in s.gates && s.gateSeq in r.value.gates
              && r.value.gates == s.gates[s.gateSeq := r.value.gates[s.gateSeq]] && GateSound(r.value.gates[s.gateSeq], now)
              && AgentsKnown(s.accounts, r.value.gates[s.gateSeq])
  {
  }

  lemma MintTouchesNoGate(s: State, now: UnixTime, c: Addr, k: Contribution)
    ensures var t := s.(awards := s.awards[s.awardSeq := Award(s.awardSeq, c, k)], awardSeq := s.awardSeq + 1);
            MintReward(t, now, k.recipient, k.amount).Ok? ==> MintReward(t, now, k.recipient, k.amount).value.gates == s.gates
  {
  }

  lemma {:induction false} PayFromTouchesNoGate(s: State, now: UnixTime, g: Gate, winning: string, i: nat)
    requires i <= |g.answers|
    ensures PayFrom(s, now, g, winning, i).Ok? ==> PayFrom(s, now, g, winning, i).value.gates == s.gates
    decreases |g.answers| - i
  {
    if i < |g.answers| {
      var r := MintReward(s, now, g.answers[i].agent, g.drip);
      if Coherent(g.answers[i], winning) && r.Ok? {
        PayFromTouchesNoGate(r.value, now, g, winning, i + 1);
      } else {
        PayFromTouchesNoGate(s, now, g, winning, i + 1);
      }
    }
  }

  lemma StepGatesSound(env: Env, s: State, now: UnixTime, m: Msg)
    requires Books(s) && GatesSound(s, now)
    ensures var r := Step(env, s, now, m);
            r.Ok? ==> GatesSound(r.value, now)
                      && forall id | id in s.gates && s.gates[id].status == GateSettled ::
                           id in r.value.gates && r.value.gates[id] == s.gates[id]
  {
    hide HandleEscrow, HandleJury, HandleBond, HandleGate, Keyed, Parties, Supply, GateSound;
    match m
    case ToEscrows(x) => EscrowsLeave(env, s, now, x);
    case ToJury(x) => JuryLeaves(env, s, now, x);
    case ToBonds(x) => BondsLeave(s, x);
    case ToGates(x) => GateMsgSound(env, s, now, x);
  }

  lemma GatesLater(s: State, c: int, clock: int)
    requires GatesSound(s, c) && c <= clock
    ensures GatesSound(s, clock)
  {
  }

  /** Over any run in block order gates stay sound, and a settled gate is never touched again. */
  lemma {:induction false} GatesOverRuns(env: Env, s: State, clock: int, txs: seq<Tx>)
    requires Books(s) && GatesSound(s, clock) && InOrder(clock, txs)
    ensures var t := Run(env, s, txs);
            && GatesSound(t, Clock(clock, txs))
            && forall id | id in s.gates && s.gates[id].status == GateSettled :: id in t.gates && t.gates[id] == s.gates[id]
    decreases |txs|
  {
    hide Step, Keyed, Parties, Supply, GateSound;
    if txs != [] {
      var now, m, rest := txs[0].now, txs[0].msg, txs[1..];
      GatesLater(s, clock, now);
      StepBalanced(env, s, now, m);
      StepGatesSound(env, s, now, m);
      assert InOrder(now, rest);
      GatesOverRuns(env, Apply(env, s, now, m), now, rest);
    }
  }

  /** No answer can be committed to a gate once any answer on it was revealed; nor to a settled one. */
  lemma NoCommitAfterReveal(s: State, clock: int, now: UnixTime, c: Addr, id: nat, commit: string)
    requires GatesSound(s, clock) && clock <= now && id in s.gates
    requires s.gates[id].status == GateSettled || exists i | 0 <= i < |s.gates[id].answers| :: s.gates[id].answers[i].revealed
    ensures CommitAnswer(s, now, c, id, commit).Err?
  {
  }

  /** Agent `a` has a coherent answer among those from the `i`-th on. */
  predicate Earned(g: Gate, winning: string, i: nat, a: Addr) {
    exists j | i <= j < |g.answers| :: Coherent(g.answers[j], winning) && g.answers[j].agent == a
  }

  lemma MintPays(s: State, now: UnixTime, to: Addr, amount: U64)
    requires Books(s)
    ensures var r := MintReward(s, now, to, amount);
            r.Ok? ==> forall a :: BalanceAt(r.value, a) == BalanceAt(s, a) + (if a == to then amount else 0)
  {
    hide Keyed, Parties, Supply, Sync;
    var r := MintReward(s, now, to, amount);
    if r.Ok? {
      MintBalanced(s, now, to, amount);
      RoomFor(s, to);
      BooksBound(r.value);
    }
  }

  lemma {:induction false} PayFromPays(s: State, now: UnixTime, g: Gate, winning: string, i: nat)
    requires Books(s) && i <= |g.answers|
    requires forall j, k | 0 <= j < k < |g.answers| :: g.answers[j].agent != g.answers[k].agent
    ensures var r := PayFrom(s, now, g, winning, i);
            r.Ok? ==> forall a :: BalanceAt(r.value, a) == BalanceAt(s, a) + (if Earned(g, winning, i, a) then g.drip else 0)
    decreases |g.answers| - i
  {
    hide Keyed, Parties, Supply, MintReward;
    if i < |g.answers| {
      if Coherent(g.answers[i], winning) {
        var to := g.answers[i].agent;
        MintBalanced(s, now, to, g.drip);
        MintPays(s, now, to, g.drip);
        var m := MintReward(s, now, to, g.drip);
        if m.Ok? {
          PayFromPays(m.value, now, g, winning, i + 1);
          assert forall a :: Earned(g, winning, i, a) <==> a == to || Earned(g, winning, i + 1, a);
        }
      } else {
        PayFromPays(s, now, g, winning, i + 1);
        assert forall a :: Earned(g, winning, i, a) <==> Earned(g, winning, i + 1, a);
      }
    }
  }

  /** Settling a gate pays the drip, once, to each agent whose revealed answer is the winning one and to
      nobody else, all of it newly mined; marks exactly those answers paid; and records the winner. */
  lemma SettleGatePays(env: Env, s: State, clock: int, now: UnixTime, c: Addr, id: nat, gold: string, salt: string)
    requires Books(s) && GatesSound(s, clock) && id in s.gates
    ensures var r := SettleGate(env, s, now, c, id, gold, salt);
            var g := s.gates[id]; var w := Winning(g.answers, gold);
            r.Ok? ==>
              && (forall a :: BalanceAt(r.value, a) == BalanceAt(s, a) + (if Earned(g, w, 0, a) then g.drip else 0))
              && Mined(r.value) == Mined(s) + g.drip * CoherentFrom(g, w, 0)
              && g.id in r.value.gates && r.value.gates[g.id].consensus == w && r.value.gates[g.id].status == GateSettled
              && |r.value.gates[g.id].answers| == |g.answers|
              && forall i | 0 <= i < |g.answers| :: r.value.gates[g.id].answers[i].paid == Coherent(g.answers[i], w)
  {
    hide Keyed, Parties, Supply, Commitment, EqualFold, PayFrom, Winning;
    assert GateSound(s.gates[id], clock);
    var g := s.gates[id];
    PayFromPays(s, now, g, Winning(g.answers, gold), 0);
    PayFromBalanced(s, now, g, Winning(g.answers, gold), 0);
  }

  // ---- When a gate settles ------------------------------------------------

  /** With an account to pay, a mint succeeds exactly when the reward covers it, and takes that much from it. */
  lemma MintIff(s: State, now: UnixTime, to: Addr, amount: U64)
    requires to in s.accounts && amount > 0
    ensures var r := MintReward(s, now, to, amount);
            && (r.Ok? <==> Affordable(s.emission, now, amount))
            && (r.Ok? ==>
                  && r.value.accounts.Keys == s.accounts.Keys
                  && RemainingScheduled(Sync(r.value.emission, now)) == RemainingScheduled(Sync(s.emission, now)) - amount
                  && RemainingEpoch(Sync(r.value.emission, now)) == RemainingEpoch(Sync(s.emission, now)) - amount)
  {
    hide Sync, RemainingScheduled, RemainingEpoch, Mine;
    if Affordable(s.emission, now, amount) { MintSpends(s.emission, now, amount); }
  }

  lemma Multiples(drip: nat, n: nat)
    ensures drip * (n + 1) == drip + drip * n
    ensures drip > 0 ==> (drip * n == 0 <==> n == 0)
  {
  }

  lemma {:induction false} PayFromIff(s: State, now: UnixTime, g: Gate, winning: string, i: nat)
    requires g.drip > 0 && AgentsKnown(s.accounts, g) && i <= |g.answers|
    ensures PayFrom(s, now, g, winning, i).Ok? <==> Affordable(s.emission, now, g.drip * CoherentFrom(g, winning, i))
    decreases |g.answers| - i
  {
    hide MintReward, Sync, RemainingScheduled, RemainingEpoch;
    if i < |g.answers| {
      if Coherent(g.answers[i], winning) {
        var to, n := g.answers[i].agent, CoherentFrom(g, winning, i + 1);
        MintIff(s, now, to, g.drip);
        Multiples(g.drip, n);
        var m := MintReward(s, now, to, g.drip);
        if m.Ok? { PayFromIff(m.value, now, g, winning, i + 1); }
      } else {
        PayFromIff(s, now, g, winning, i + 1);
      }
    }
  }

  /** An open gate past its reveal deadline settles, given an opening of its gold commitment, exactly when
      the drips of its coherent answers, taken together, fit what may be minted at that time: no missing
      account and no guard on new ones can stand in the way. */
  lemma SettleGateIff(env: Env, s: State, clock: int, now: UnixTime, c: Addr, id: nat, gold: string, salt: string)
    requires GatesSound(s, clock)
    ensures SettleGate(env, s, now, c, id, gold, salt).Ok? <==>
              && c != "" && id in s.gates && s.gates[id].status == GateOpen && now >= s.gates[id].revealDeadline
              && EqualFold(Commitment(env, gold, salt), s.gates[id].goldCommit)
              && var g := s.gates[id];
                 Affordable(s.emission, now, g.drip * CoherentFrom(g, Winning(g.answers, gold), 0))
  {
    hide Winning, Commitment, EqualFold, PayFrom, Affordable;
    if id in s.gates {
      var g := s.gates[id];
      assert GateSound(g, clock) && AgentsKnown(s.accounts, g);
      PayFromIff(s, now, g, Winning(g.answers, gold), 0);
    }
  }

  /** Whichever way its gold commitment is opened, the gate's drips exceed every epoch's reward. */
  ghost predicate Oversized(env: Env, g: Gate, supply: nat, divisor: nat)
    requires divisor > 0
  {
    forall gold: string, salt: string | EqualFold(Commitment(env, gold, salt), g.goldCommit) ::
      g.drip * CoherentFrom(g, Winning(g.answers, gold), 0) > LargestReward(supply, divisor)
  }

  lemma OversizedRefused(env: Env, s: State, clock: int, now: UnixTime, c: Addr, id: nat, gold: string, salt: string,
                         supply: nat, divisor: nat)
    requires GatesSound(s, clock) && Follows(s, supply, divisor) && divisor > 0
    requires id in s.gates && Oversized(env, s.gates[id], supply, divisor)
    ensures SettleGate(env, s, now, c, id, gold, salt).Err?
  {
    hide OnSchedule, Sync, GatesSound, SettleGate, Winning, Commitment, EqualFold, LargestReward;
    SettleGateIff(env, s, clock, now, c, id, gold, salt);
    var e := Sync(s.emission, now);
    SyncOnSchedule(s.emission, now);
    SyncKeepsTerms(s.emission, now);
    OnScheduleFacts(e);
    ScheduleAtMost(supply, divisor, e.currentEpoch);
  }

  lemma AnswersTooLate(env: Env, s: State, now: UnixTime, m: GateMsg)
    requires GatesSound(s, now) && (m.MsgCommitAnswer? || m.MsgRevealAnswer?)
    requires m.id in s.gates && now >= s.gates[m.id].revealDeadline
    ensures HandleGate(env, s, now, m).Err?
  {
    assert GateSound(s.gates[m.id], now);
  }

  lemma GateMsgLeaves(env: Env, s: State, now: UnixTime, m: GateMsg, id: nat, supply: nat, divisor: nat)
    requires Keyed(s) && GatesSound(s, now) && Follows(s, supply, divisor) && divisor > 0
    requires id in s.gates && s.gates[id].status == GateOpen && now >= s.gates[id].revealDeadline
    requires Oversized(env, s.gates[id], supply, divisor)
    ensures var r := HandleGate(env, s, now, m);
            r.Ok? ==> id in r.value.gates && r.value.gates[id] == s.gates[id]
  {
    hide Follows, Oversized, GatesSound, Keyed, PostGate, CommitAnswer, RevealAnswer, SettleGate, MintReward, CheckContribution, Awarded;
    match m
    case MsgPostGate(c, uri, hash, gold, drip, max) => PostedSound(env, s, now, c, uri, hash, gold, drip, max);
    case MsgSettleGate(c, i, gold, salt) =>
      OversizedRefused(env, s, now, now, c, id, gold, salt, supply, divisor);
      SettledSound(env, s, now, c, i, gold, salt);
    case MsgAwardContribution(c, k) => MintTouchesNoGate(s, now, c, k);
    case _ =>
      AnswersSound(env, s, now, m);
      if m.id == id { AnswersTooLate(env, s, now, m); }
  }

  lemma OversizedStep(env: Env, s: State, now: UnixTime, m: Msg, id: nat, supply: nat, divisor: nat)
    requires Keyed(s) && GatesSound(s, now) && Follows(s, supply, divisor) && divisor > 0
    requires id in s.gates && s.gates[id].status == GateOpen && now >= s.gates[id].revealDeadline
    requires Oversized(env, s.gates[id], supply, divisor)
    ensures var r := Step(env, s, now, m);
            r.Ok? ==> id in r.value.gates && r.value.gates[id] == s.gates[id] && Follows(r.value, supply, divisor)
  {
    hide HandleEscrow, HandleJury, HandleBond, HandleGate, Keyed, GatesSound, Oversized, OnSchedule;
    ScheduleKeptByMints(supply, divisor);
    StepKeeps(env, s, now, m, OnScheduleOf(supply, divisor), 1);
    match m
    case ToEscrows(x) => EscrowsLeave(env, s, now, x);
    case ToJury(x) => JuryLeaves(env, s, now, x);
    case ToBonds(x) => BondsLeave(s, x);
    case ToGates(x) => GateMsgLeaves(env, s, now, x, id, supply, divisor);
  }

  /** A gate that owes more in drips than any epoch pays never settles: once its reveal window has closed,
      no run ever touches it again, and nobody who answered is ever paid. */
  lemma {:induction false} OversizedNeverSettles(env: Env, s: State, clock: int, txs: seq<Tx>, id: nat, supply: nat, divisor: nat)
    requires Books(s) && GatesSound(s, clock) && Follows(s, supply, divisor) && divisor > 0 && InOrder(clock, txs)
    requires id in s.gates && s.gates[id].status == GateOpen && clock >= s.gates[id].revealDeadline
    requires Oversized(env, s.gates[id], supply, divisor)
    ensures var t := Run(env, s, txs);
            id in t.gates && t.gates[id] == s.gates[id] && forall i | 0 <= i < |t.gates[id].answers| :: !t.gates[id].answers[i].paid
    decreases |txs|
  {
    hide Step, Keyed, Parties, Supply, Follows, Oversized;
    if txs != [] {
      var now, m, rest := txs[0].now, txs[0].msg, txs[1..];
      GatesLater(s, clock, now);
      StepBalanced(env, s, now, m);
      StepGatesSound(env, s, now, m);
      OversizedStep(env, s, now, m, id, supply, divisor);
      assert InOrder(now, rest);
      OversizedNeverSettles(env, Apply(env, s, now, m), now, rest, id, supply, divisor);
    } else {
      assert GateSound(s.gates[id], clock);
    }
  }
}
