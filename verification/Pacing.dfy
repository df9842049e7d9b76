/** The emission state over runs, by its fields: which boundaries and bookings take it from one state to the
    next, and what each of them may change. */
module Pacing {
  import opened Outcomes
  import opened Integers
  import opened Types
  import opened Emission
  import opened Machine
  import opened Rails

  /** What was left to schedule when the current epoch began. */
  function LeftAtStart(e: EmissionState): int {
    e.maxSupply - (e.totalMined - e.epochMined) - e.totalBurned
  }

  /** The clock runs, and the current epoch was scheduled the fair share of what was left when it began. */
  predicate Paced(e: EmissionState) {
    && 0 < e.maxSupply && 0 < e.divisor && 0 < e.epochLength < TWO63
    && e.genesisTime != 0 && 0 < e.epochStartedAt && 0 < e.currentEpoch
    && e.epochMined <= e.epochScheduled && e.epochMined <= e.totalMined && LeftAtStart(e) >= 0
    && Fair(LeftAtStart(e), e.divisor, e.epochScheduled)
  }

  /** An epoch boundary: what the old epoch scheduled and nobody mined is burned, and the new epoch is
      scheduled the fair share of what is then neither mined nor burned. */
  predicate Boundary(e: EmissionState, f: EmissionState) {
    && e.epochMined <= e.epochScheduled
    && f == e.(totalBurned := f.totalBurned, currentEpoch := e.currentEpoch + 1, epochStartedAt := e.epochStartedAt + e.epochLength,
               epochMined := 0, epochScheduled := f.epochScheduled)
    && f.totalBurned == e.totalBurned + (e.epochScheduled - e.epochMined)
    && Fair(f.maxSupply - f.totalMined - f.totalBurned, f.divisor, f.epochScheduled)
  }

  /** A booking: an amount the current epoch still has is mined, in total and in this epoch. */
  predicate Booking(e: EmissionState, f: EmissionState) {
    && e.totalMined <= f.totalMined
    && f == e.(totalMined := f.totalMined, epochMined := f.epochMined)
    && f.epochMined - e.epochMined == f.totalMined - e.totalMined && f.epochMined <= e.epochScheduled
  }

  /** A history: each state follows from the one before by a boundary or a booking. */
  predicate History(states: seq<EmissionState>) {
    |states| > 0 && forall i | 0 < i < |states| :: Boundary(states[i - 1], states[i]) || Booking(states[i - 1], states[i])
  }

  predicate Leads(states: seq<EmissionState>, e: EmissionState, f: EmissionState) {
    History(states) && states[0] == e && states[|states| - 1] == f
  }

  lemma FairAtMost(left: nat, divisor: nat, r: nat)
    requires divisor > 0 && Fair(left, divisor, r)
    ensures r <= left && (r == 0 ==> left == 0)
  {
    if r > 0 && left >= divisor { Product(divisor, r); }
  }

  lemma PacedFacts(e: EmissionState)
    requires Paced(e)
    ensures Initialised(e) && e.totalMined + e.totalBurned + RemainingEpoch(e) <= e.maxSupply
    ensures RemainingEpoch(e) == e.epochScheduled - e.epochMined
    ensures RemainingScheduled(e) == LeftAtStart(e) - e.epochMined
  {
    FairAtMost(LeftAtStart(e), e.divisor, e.epochScheduled);
  }

  lemma TickIsBoundary(e: EmissionState)
    requires Paced(e)
    ensures Boundary(e, Tick(e)) && Paced(Tick(e)) && Tick(e).epochStartedAt > e.epochStartedAt
  {
    hide RemainingEpoch, RemainingScheduled, Fair, Reward;
    PacedFacts(e);
    var f := Tick(e);
    LeftAfter(f, e);
    RewardIsFair(RemainingScheduled(f), f.divisor);
  }

  /** What may still be scheduled does not depend on the reward of the epoch. */
  lemma LeftAfter(f: EmissionState, e: EmissionState)
    requires e.divisor > 0 && f == Tick(e) && e.totalMined + e.totalBurned + RemainingEpoch(e) <= e.maxSupply
    ensures f.totalBurned == e.totalBurned + RemainingEpoch(e)
    ensures RemainingScheduled(f) == f.maxSupply - f.totalMined - f.totalBurned
    ensures f.epochScheduled == Reward(RemainingScheduled(f), f.divisor)
  {
    hide Reward;
  }

  lemma Extend(states: seq<EmissionState>, e: EmissionState, f: EmissionState, g: EmissionState)
    requires Leads(states, e, f) && (Boundary(f, g) || Booking(f, g))
    ensures Leads(states + [g], e, g)
  {
    hide Boundary, Booking;
  }

  lemma {:induction false} CatchUpLeads(states: seq<EmissionState>, e: EmissionState, f: EmissionState, now: int) returns (longer: seq<EmissionState>)
    requires f.divisor > 0 && Leads(states, e, f) && Paced(f)
    ensures Leads(longer, e, CatchUp(f, now)) && Paced(CatchUp(f, now))
    decreases if EpochDue(f, now) then now - f.epochStartedAt else 0
  {
    hide Leads, Boundary, Booking, Tick, Paced;
    longer := states;
    if EpochDue(f, now) {
      TickIsBoundary(f);
      Extend(states, e, f, Tick(f));
      longer := CatchUpLeads(states + [Tick(f)], e, Tick(f), now);
    }
  }

  lemma MineIsBooking(e: EmissionState, amount: U64)
    requires Paced(e) && amount <= RemainingEpoch(e)
    ensures Booking(e, Mine(e, amount)) && Paced(Mine(e, amount))
  {
    PacedFacts(e);
  }

  lemma SyncOfPaced(e: EmissionState, now: UnixTime)
    requires Paced(e)
    ensures Sync(Some(e), now) == CatchUp(e, now)
  {
    PacedFacts(e);
  }

  /** Some history leads from `e` to the stored state. */
  ghost predicate Follows(e: EmissionState, stored: Option<EmissionState>) {
    stored.Some? && Paced(stored.value) && exists states :: Leads(states, e, stored.value)
  }

  ghost function After(e: EmissionState): Option<EmissionState> -> bool {
    stored => Follows(e, stored)
  }

  lemma HistoryKeptByMints(e: EmissionState)
    ensures KeptByMints(After(e), 1)
  {
    hide Leads, Paced, Sync, Mine, CatchUp;
    forall stored: Option<EmissionState>, now: UnixTime, amount: U64 |
      Follows(e, stored) && amount <= RemainingScheduled(Sync(stored, now)) && amount <= RemainingEpoch(Sync(stored, now))
      ensures Follows(e, Some(Mine(Sync(stored, now), amount)))
    {
      var states :| Leads(states, e, stored.value);
      SyncOfPaced(stored.value, now);
      states := CatchUpLeads(states, e, stored.value, now);
      var f := Sync(stored, now);
      MineIsBooking(f, amount);
      Extend(states, e, f, Mine(f, amount));
    }
  }

  /** Over any run the emission state gets from where it was to where it is by epoch boundaries and bookings
      alone. Each boundary burns, to the unit, what its epoch did not mine, and schedules the next epoch the
      fair share of what is left; each booking stays within its epoch's reward. So the reward of an epoch is
      fixed by multiplication from the fields of the epoch before. */
  lemma RunsByBoundariesAndBookings(env: Env, s: State, txs: seq<Tx>)
    requires s.emission.Some? && Paced(s.emission.value)
    ensures var t := Run(env, s, txs);
            t.emission.Some? && Paced(t.emission.value) && exists states :: Leads(states, s.emission.value, t.emission.value)
  {
    hide Paced, Boundary, Booking, Run;
    var e := s.emission.value;
    HistoryKeptByMints(e);
    assert Leads([e], e, e);
    RunKeeps(env, s, txs, After(e), 1);
  }

  /** The default state in plain figures: 21 million to mine, weekly epochs, a thousandth of what is left
      each; and the rewards of its first three epochs if nobody mines. */
  lemma DefaultFigures(start: UnixTime)
    ensures Default(start) == EmissionState(21_000_000, 604_800, 1_000, start, 1, start, 21_000, 0, 0, 0)
    ensures Paced(Default(start))
    ensures Tick(Default(start)).epochScheduled == 20_979
    ensures Tick(Tick(Default(start))).epochScheduled == 20_958
    ensures RemainingScheduled(Tick(Tick(Default(start)))) == 20_958_021
  {
  }

  /** A stored state whose control fields were never set starts, when it is first used, its first weekly epoch
      with the fair thousandth of what is left. */
  lemma UnsetStateStarts(supply: U64, mined: U64, burned: U64, now: UnixTime)
    requires 0 < supply && mined + burned <= supply
    ensures var f := Fill(EmissionState(supply, 0, 0, 0, 0, 0, 0, 0, mined, burned), now);
            && f == EmissionState(supply, 604_800, 1_000, now, 1, now, f.epochScheduled, 0, mined, burned)
            && Fair(supply - mined - burned, 1_000, f.epochScheduled)
  {
    hide Fair, Reward;
    RewardIsFair(supply - mined - burned, 1_000);
    RewardOfNothing();
  }

  lemma RewardOfNothing()
    ensures Reward(0, 1_000) == 0
  {
  }
}
