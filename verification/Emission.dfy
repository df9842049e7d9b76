/** The monetary policy: weekly epochs, each scheduling a fraction of what is left. */
module Emission {
  import opened Outcomes
  import opened Integers

  const MAX_SUPPLY: U64 := 21_000_000
  const EPOCH_LENGTH_SECONDS: U64 := 604800
  const EPOCH_REWARD_DIVISOR: U64 := 1000

  datatype EmissionState = EmissionState(
    maxSupply: U64,
    epochLength: U64,
    divisor: U64,
    genesisTime: int,
    currentEpoch: nat,
    epochStartedAt: int,
    epochScheduled: U64,
    epochMined: U64,
    totalMined: U64,
    totalBurned: U64)

  function Default(startedAt: int): EmissionState {
    EmissionState(MAX_SUPPLY, EPOCH_LENGTH_SECONDS, EPOCH_REWARD_DIVISOR, startedAt, 1, startedAt,
                  MAX_SUPPLY / EPOCH_REWARD_DIVISOR, 0, 0, 0)
  }

  /** Supply that may still be scheduled. */
  function RemainingScheduled(e: EmissionState): U64 {
    if e.totalMined >= e.maxSupply then 0
    else if e.totalBurned >= e.maxSupply - e.totalMined then 0
    else e.maxSupply - e.totalMined - e.totalBurned
  }

  /** Reward of the current epoch that nobody has mined yet. */
  function RemainingEpoch(e: EmissionState): U64 {
    if e.epochMined >= e.epochScheduled then 0 else e.epochScheduled - e.epochMined
  }

  /** The share of `left` that one epoch schedules. */
  function Reward(left: nat, divisor: nat): (r: nat)
    requires divisor > 0
    ensures r <= left
    ensures r == 0 <==> left == 0
  {
    QuotientBound(left, divisor);
    if left == 0 then 0
    else if left / divisor == 0 then left
    else left / divisor
  }

  lemma QuotientBound(n: nat, d: nat)
    requires d > 0
    ensures 0 <= n / d <= n
  {
    var q := n / d;
    assert n == q * d + n % d;
    if q > 0 {
      Product(d, q);
    }
  }

  /** A positive multiple is at least what it multiplies. */
  lemma Product(k: int, n: int)
    requires k >= 1 && n >= 0
    ensures k * n >= n
  {
  }

  function NextEpochScheduled(e: EmissionState): U64
    requires e.divisor > 0
  {
    Reward(RemainingScheduled(e), e.divisor)
  }

  /** The stored state, or the default one when there is none. */
  function Fetch(stored: Option<EmissionState>, now: UnixTime): EmissionState {
    if stored.None? || stored.value.maxSupply == 0 then Default(now) else stored.value
  }

  /** Zero fields take their defaults before the first rollover. */
  function Fill(e: EmissionState, now: UnixTime): (r: EmissionState)
    ensures r.divisor > 0 && r.maxSupply == e.maxSupply && r.totalMined == e.totalMined
  {
    var e := if e.genesisTime == 0 then e.(genesisTime := now) else e;
    var e := if e.epochStartedAt == 0 then e.(epochStartedAt := now) else e;
    var e := if e.currentEpoch == 0 then e.(currentEpoch := 1) else e;
    var e := if e.epochLength == 0 then e.(epochLength := EPOCH_LENGTH_SECONDS) else e;
    var e := if e.divisor == 0 then e.(divisor := EPOCH_REWARD_DIVISOR) else e;
    if e.epochScheduled == 0 && RemainingScheduled(e) > 0
    then e.(epochScheduled := NextEpochScheduled(e)) else e
  }

  /** One epoch boundary: unclaimed reward is burned and the next epoch is scheduled. */
  function Tick(e: EmissionState): (r: EmissionState)
    requires e.divisor > 0
    ensures r.divisor == e.divisor && r.epochLength == e.epochLength && r.maxSupply == e.maxSupply
    ensures r.totalMined == e.totalMined
  {
    var e := e.(totalBurned := Add64(e.totalBurned, RemainingEpoch(e)),
                currentEpoch := e.currentEpoch + 1,
                epochStartedAt := e.epochStartedAt + ToInt64(e.epochLength),
                epochMined := 0);
    e.(epochScheduled := NextEpochScheduled(e))
  }

  /** An epoch boundary lies at or before `now`. */
  predicate EpochDue(e: EmissionState, now: int) {
    ToInt64(e.epochLength) > 0 && now >= e.epochStartedAt + ToInt64(e.epochLength)
  }

  function CatchUp(e: EmissionState, now: int): (r: EmissionState)
    requires e.divisor > 0
    ensures r.divisor == e.divisor && r.maxSupply == e.maxSupply && r.totalMined == e.totalMined
    decreases if EpochDue(e, now) then now - e.epochStartedAt else 0
  {
    if EpochDue(e, now) then CatchUp(Tick(e), now) else e
  }

  /** The state every mint works on. */
  function Sync(stored: Option<EmissionState>, now: UnixTime): (r: EmissionState)
    ensures r.divisor > 0
    ensures r.maxSupply == Fetch(stored, now).maxSupply && r.totalMined == Fetch(stored, now).totalMined
  {
    CatchUp(Fill(Fetch(stored, now), now), now)
  }

  /** Book `amount` as mined in the current epoch. */
  function Mine(e: EmissionState, amount: U64): EmissionState {
    e.(totalMined := Add64(e.totalMined, amount), epochMined := Add64(e.epochMined, amount))
  }

  // ---- Lazy catch-up ------------------------------------------------------

  /** Every field is set and the epoch clock can run. */
  predicate Initialised(e: EmissionState) {
    && 0 < e.maxSupply && 0 < e.divisor && 0 < e.epochLength < TWO63
    && e.genesisTime != 0 && 0 < e.epochStartedAt && 0 < e.currentEpoch
    && (e.epochScheduled == 0 ==> RemainingScheduled(e) == 0)
  }

  /** Catching up advances the epoch by exactly the number of whole epochs elapsed. */
  lemma {:induction false} CatchUpAdvances(e: EmissionState, now: int)
    requires Initialised(e) && e.epochStartedAt <= now
    ensures var r := CatchUp(e, now); var elapsed := (now - e.epochStartedAt) / e.epochLength;
            && Initialised(r)
            && r.currentEpoch == e.currentEpoch + elapsed
            && r.epochStartedAt == e.epochStartedAt + elapsed * e.epochLength
            && r.epochStartedAt <= now < r.epochStartedAt + r.epochLength
            && r.epochLength == e.epochLength
    decreases now - e.epochStartedAt
  {
    if EpochDue(e, now) {
      CatchUpAdvances(Tick(e), now);
      var d, len := now - e.epochStartedAt, e.epochLength;
      WholeEpochs(d, len);
    } else {
      assert 0 <= now - e.epochStartedAt < e.epochLength;
      SmallQuotient(now - e.epochStartedAt, e.epochLength);
    }
  }

  lemma WholeEpochs(d: int, len: int)
    requires 0 < len <= d
    ensures d / len == 1 + (d - len) / len
    ensures (1 + (d - len) / len) * len == len + (d - len) / len * len
  {
    var q, r := (d - len) / len, (d - len) % len;
    assert d == (q + 1) * len + r;
    QuotientUnique(d, len, q + 1, r);
  }

  lemma QuotientUnique(d: int, len: int, q: int, r: int)
    requires 0 < len && d == q * len + r && 0 <= r < len
    ensures d / len == q
  {
    var q', r' := d / len, d % len;
    assert d == q' * len + r';
    assert (q - q') * len == q * len - q' * len && (q' - q) * len == q' * len - q * len;
    if q > q' {
      Product(q - q', len);
    } else if q < q' {
      Product(q' - q, len);
    }
  }

  lemma SmallQuotient(d: int, len: int)
    requires 0 <= d < len
    ensures d / len == 0
  {
  }

  /** Catching up in two stops is catching up once. */
  lemma {:induction false} CatchUpComposes(e: EmissionState, t1: int, t2: int)
    requires e.divisor > 0 && t1 <= t2
    ensures CatchUp(CatchUp(e, t1), t2) == CatchUp(e, t2)
    decreases if EpochDue(e, t1) then t1 - e.epochStartedAt else 0
  {
    if EpochDue(e, t1) {
      CatchUpComposes(Tick(e), t1, t2);
    }
  }

  lemma SyncInitialised(e: EmissionState, now: UnixTime)
    requires Initialised(e) && e.epochStartedAt <= now
    ensures Sync(Some(e), now) == CatchUp(e, now)
    ensures Initialised(Sync(Some(e), now)) && Sync(Some(e), now).epochStartedAt <= now
  {
    CatchUpAdvances(e, now);
  }

  /** Synchronising at one time and later again equals synchronising at the later time;
      in particular a second synchronisation at the same time changes nothing. */
  lemma SyncComposes(e: EmissionState, t1: UnixTime, t2: UnixTime)
    requires Initialised(e) && e.epochStartedAt <= t1 <= t2
    ensures Sync(Some(Sync(Some(e), t1)), t2) == Sync(Some(e), t2)
  {
    SyncInitialised(e, t1);
    SyncInitialised(e, t2);
    SyncInitialised(Sync(Some(e), t1), t2);
    CatchUpComposes(e, t1, t2);
  }

  /** Synchronise at every time of a list, as an end-blocker would. */
  function EagerSync(e: EmissionState, times: seq<UnixTime>): EmissionState
    decreases |times|
  {
    if times == [] then e else EagerSync(Sync(Some(e), times[0]), times[1..])
  }

  /** Eager ticking over any non-decreasing sequence of block times is one lazy catch-up. */
  lemma {:induction false} LazyEqualsEager(e: EmissionState, times: seq<UnixTime>)
    requires times != [] && Initialised(e) && e.epochStartedAt <= times[0]
    requires forall i, j | 0 <= i < j < |times| :: times[i] <= times[j]
    ensures EagerSync(e, times) == Sync(Some(e), times[|times| - 1])
    decreases |times|
  {
    SyncInitialised(e, times[0]);
    if |times| > 1 {
      var rest := times[1..];
      LazyEqualsEager(Sync(Some(e), times[0]), rest);
      SyncComposes(e, times[0], times[|times| - 1]);
    } else {
      assert times[1..] == [];
    }
  }

  // ---- The schedule -------------------------------------------------------

  /** Supply not yet scheduled when epoch `k` begins (`k >= 1`), whatever has been mined. */
  function Left(supply: nat, divisor: nat, k: nat): (left: nat)
    requires divisor > 0
    ensures left <= supply
  {
    if k <= 1 then supply
    else Left(supply, divisor, k - 1) - Reward(Left(supply, divisor, k - 1), divisor)
  }

  /** The reward epoch `k` schedules. */
  function Schedule(supply: nat, divisor: nat, k: nat): nat
    requires divisor > 0
  {
    Reward(Left(supply, divisor, k), divisor)
  }

  /** Total scheduled over epochs 1 up to and excluding `k`. */
  function ScheduledBefore(supply: nat, divisor: nat, k: nat): nat
    requires divisor > 0
  {
    if k <= 1 then 0 else ScheduledBefore(supply, divisor, k - 1) + Schedule(supply, divisor, k - 1)
  }

  /** `r` is the fair share of `left`: the quotient by `divisor`, or all of it when there is less than that. */
  predicate Fair(left: int, divisor: nat, r: nat) {
    if left >= divisor then r * divisor <= left < (r + 1) * divisor else r == left
  }

  lemma RewardIsFair(left: nat, divisor: nat)
    requires divisor > 0
    ensures Fair(left, divisor, Reward(left, divisor))
  {
    if left < divisor {
      SmallQuotient(left, divisor);
    } else {
      QuotientParts(left, divisor);
    }
  }

  lemma QuotientParts(n: nat, d: nat)
    requires 0 < d <= n
    ensures var q := n / d; q > 0 && q * d <= n < (q + 1) * d
  {
    var q, r := n / d, n % d;
    assert n == q * d + r;
    assert (q + 1) * d == q * d + d;
    assert q * d > 0;
  }

  lemma {:induction false} ScheduledIsWhatLeft(supply: nat, divisor: nat, k: nat)
    requires divisor > 0
    ensures ScheduledBefore(supply, divisor, k) + Left(supply, divisor, k) == supply
  {
    if k > 1 {
      ScheduledIsWhatLeft(supply, divisor, k - 1);
    }
  }

  lemma {:induction false} LeftShrinks(supply: nat, divisor: nat, k: nat)
    requires divisor > 0 && k >= 1 && k <= supply + 1
    ensures Left(supply, divisor, k) <= supply + 1 - k
  {
    if k > 1 {
      LeftShrinks(supply, divisor, k - 1);
    }
  }

  /** Every epoch is scheduled the fair share of what the epochs before it left over. */
  lemma ScheduleIsFair(supply: nat, divisor: nat, k: nat)
    requires divisor > 0
    ensures Fair(supply - ScheduledBefore(supply, divisor, k), divisor, Schedule(supply, divisor, k))
  {
    hide Fair;
    ScheduledIsWhatLeft(supply, divisor, k);
    RewardIsFair(Left(supply, divisor, k), divisor);
  }

  /** The schedule pays out the whole supply over finitely many epochs, each of them non-zero,
      and nothing afterwards. */
  lemma ScheduleExhaustsSupply(supply: nat, divisor: nat) returns (last: nat)
    requires divisor > 0
    ensures last <= supply
    ensures ScheduledBefore(supply, divisor, last + 1) == supply
    ensures forall k | 1 <= k <= last :: Schedule(supply, divisor, k) > 0
    ensures forall k | k > last :: Schedule(supply, divisor, k) == 0
  {
    last := 0;
    while Left(supply, divisor, last + 1) > 0
      invariant last <= supply
      invariant forall k | 1 <= k <= last :: Schedule(supply, divisor, k) > 0
      decreases supply - last
    {
      LeftShrinks(supply, divisor, last + 1);
      last := last + 1;
    }
    ScheduledIsWhatLeft(supply, divisor, last + 1);
    forall k | k > last
      ensures Schedule(supply, divisor, k) == 0
    {
      NothingLeftLater(supply, divisor, last + 1, k);
    }
  }

  lemma {:induction false} NothingLeftLater(supply: nat, divisor: nat, j: nat, k: nat)
    requires divisor > 0 && 1 <= j <= k && Left(supply, divisor, j) == 0
    ensures Left(supply, divisor, k) == 0
    decreases k
  {
    if j < k {
      NothingLeftLater(supply, divisor, j, k - 1);
    }
  }

  /** The state follows the schedule: the current reward is the one the schedule fixes for this
      epoch, and what earlier epochs scheduled was either mined or burned. */
  predicate OnSchedule(e: EmissionState) {
    && Initialised(e)
    && e.epochScheduled == Schedule(e.maxSupply, e.divisor, e.currentEpoch)
    && e.epochMined <= e.epochScheduled && e.epochMined <= e.totalMined
    && e.totalMined - e.epochMined + e.totalBurned
       == ScheduledBefore(e.maxSupply, e.divisor, e.currentEpoch)
  }

  lemma DefaultOnSchedule(startedAt: UnixTime)
    ensures OnSchedule(Default(startedAt))
  {
  }

  /** What being on schedule says about the supply. */
  lemma OnScheduleAccounts(e: EmissionState)
    requires OnSchedule(e)
    ensures e.totalMined + e.totalBurned <= e.maxSupply
    ensures RemainingEpoch(e) <= RemainingScheduled(e)
    ensures RemainingScheduled(e) + e.epochMined == Left(e.maxSupply, e.divisor, e.currentEpoch)
  {
    ScheduledIsWhatLeft(e.maxSupply, e.divisor, e.currentEpoch);
  }

  lemma TickOnSchedule(e: EmissionState)
    requires OnSchedule(e)
    ensures OnSchedule(Tick(e))
  {
    OnScheduleAccounts(e);
    var k := e.currentEpoch;
    assert Left(e.maxSupply, e.divisor, k + 1) == Left(e.maxSupply, e.divisor, k) - e.epochScheduled;
    ScheduledIsWhatLeft(e.maxSupply, e.divisor, k + 1);
    assert ScheduledBefore(e.maxSupply, e.divisor, k + 1)
        == ScheduledBefore(e.maxSupply, e.divisor, k) + e.epochScheduled;
  }

  lemma {:induction false} CatchUpOnSchedule(e: EmissionState, now: int)
    requires OnSchedule(e)
    ensures OnSchedule(CatchUp(e, now))
    decreases if EpochDue(e, now) then now - e.epochStartedAt else 0
  {
    if EpochDue(e, now) {
      TickOnSchedule(e);
      CatchUpOnSchedule(Tick(e), now);
    }
  }

  lemma SyncOnSchedule(stored: Option<EmissionState>, now: UnixTime)
    requires stored.Some? && stored.value.maxSupply != 0 ==> OnSchedule(stored.value)
    ensures OnSchedule(Sync(stored, now))
  {
    var e := Fetch(stored, now);
    DefaultOnSchedule(now);
    assert Fill(e, now) == e;
    CatchUpOnSchedule(e, now);
  }

  lemma MineOnSchedule(e: EmissionState, amount: U64)
    requires OnSchedule(e) && amount <= RemainingEpoch(e)
    ensures OnSchedule(Mine(e, amount))
  {
    OnScheduleAccounts(e);
  }

  // ---- Where the totals are exact -----------------------------------------

  /** The last instant of block time. */
  const LAST_TIME: UnixTime := 253402300799

  /** What the first synchronisation works on, at time `start`. */
  function FirstAt(stored: Option<EmissionState>, start: UnixTime): EmissionState {
    Fill(Fetch(stored, start), start)
  }

  /** The same when only the totals matter: they do not depend on the time. */
  function First(stored: Option<EmissionState>): EmissionState {
    FirstAt(stored, 1)
  }

  /** Burning what is unclaimed does not wrap the burned total. */
  predicate BurnFits(e: EmissionState) {
    e.totalBurned + RemainingEpoch(e) < TWO64
  }

  /** No boundary that catching up passes wraps the burned total. */
  predicate CatchUpExact(e: EmissionState, now: int)
    requires e.divisor > 0
    decreases if EpochDue(e, now) then now - e.epochStartedAt else 0
  {
    EpochDue(e, now) ==> BurnFits(e) && CatchUpExact(Tick(e), now)
  }

  predicate SyncExact(stored: Option<EmissionState>, now: UnixTime) {
    CatchUpExact(Fill(Fetch(stored, now), now), now)
  }

  predicate WithinCap(e: EmissionState) {
    e.totalMined + e.totalBurned <= e.maxSupply
  }

  /** The unspent reward of this epoch is covered by what may still be scheduled. */
  predicate Solvent(e: EmissionState) {
    WithinCap(e) && RemainingEpoch(e) <= RemainingScheduled(e)
  }

  lemma TickFits(e: EmissionState)
    requires e.divisor > 0 && e.totalMined <= e.maxSupply && BurnFits(e)
    ensures BurnFits(Tick(e))
    ensures Solvent(e) ==> Solvent(Tick(e))
    ensures WithinCap(e) ==> (WithinCap(Tick(e)) <==> Solvent(e))
    ensures !WithinCap(Tick(e)) ==> RemainingEpoch(Tick(e)) == 0
  {
  }

  /** Once a boundary was passed without wrapping, every later one is too. */
  lemma {:induction false} CatchUpFits(e: EmissionState, now: int)
    requires e.divisor > 0 && e.totalMined <= e.maxSupply && BurnFits(e)
    ensures CatchUpExact(e, now) && BurnFits(CatchUp(e, now))
    ensures Solvent(e) ==> Solvent(CatchUp(e, now))
    decreases if EpochDue(e, now) then now - e.epochStartedAt else 0
  {
    if EpochDue(e, now) {
      TickFits(e);
      CatchUpFits(Tick(e), now);
    }
  }

  lemma {:induction false} OverCapStays(e: EmissionState, now: int)
    requires e.divisor > 0 && e.totalMined <= e.maxSupply && BurnFits(e) && !WithinCap(e) && RemainingEpoch(e) == 0
    ensures !WithinCap(CatchUp(e, now))
    decreases if EpochDue(e, now) then now - e.epochStartedAt else 0
  {
    if EpochDue(e, now) {
      TickFits(e);
      OverCapStays(Tick(e), now);
    }
  }

  /** When a boundary is due, catching up is exact if and only if the first burn fits. */
  lemma CatchUpExactIff(e: EmissionState, now: int)
    requires e.divisor > 0 && e.totalMined <= e.maxSupply && EpochDue(e, now)
    ensures CatchUpExact(e, now) <==> BurnFits(e)
    ensures WithinCap(e) && BurnFits(e) ==> (WithinCap(CatchUp(e, now)) <==> Solvent(e))
  {
    if BurnFits(e) {
      CatchUpFits(e, now);
      TickFits(e);
      if WithinCap(e) && !Solvent(e) { OverCapStays(Tick(e), now); }
    }
  }

  /** The fields the totals depend on. */
  predicate SameTotals(e: EmissionState, f: EmissionState) {
    && f.totalBurned == e.totalBurned && f.epochScheduled == e.epochScheduled && f.epochMined == e.epochMined
    && f.totalMined == e.totalMined && f.maxSupply == e.maxSupply && f.divisor == e.divisor && f.epochLength == e.epochLength
  }

  /** Filling sets no total, and the reward it fills in does not depend on the time. */
  lemma FillAgrees(e: EmissionState, t: UnixTime, u: UnixTime)
    ensures SameTotals(Fill(e, t), Fill(e, u))
  {
    hide Reward;
  }

  lemma FirstAgrees(stored: Option<EmissionState>, now: UnixTime)
    ensures var f := FirstAt(stored, now);
            SameTotals(f, First(stored)) && (BurnFits(f) <==> BurnFits(First(stored))) && (Solvent(f) <==> Solvent(First(stored)))
  {
    if stored.None? || stored.value.maxSupply == 0 {
      assert Fill(Default(now), now) == Default(now) && Fill(Default(1), 1) == Default(1);
    } else {
      FillAgrees(stored.value, now, 1);
    }
    TotalsDecide(FirstAt(stored, now), First(stored));
  }

  lemma TotalsDecide(e: EmissionState, f: EmissionState)
    requires SameTotals(e, f)
    ensures BurnFits(e) <==> BurnFits(f)
    ensures Solvent(e) <==> Solvent(f)
    ensures WithinCap(e) <==> WithinCap(f)
  {
  }

  /** What a synchronisation and a mint within the remaining reward leave is filled already. */
  predicate Filled(e: EmissionState) {
    && 0 < e.maxSupply && 0 < e.divisor && 0 < e.epochLength && 0 < e.currentEpoch && e.genesisTime != 0
    && (e.epochScheduled == 0 ==> RemainingScheduled(e) == 0)
  }

  lemma {:induction false} CatchUpFilled(e: EmissionState, now: int)
    requires Filled(e)
    ensures Filled(CatchUp(e, now)) && CatchUp(e, now).epochLength == e.epochLength
    decreases if EpochDue(e, now) then now - e.epochStartedAt else 0
  {
    if EpochDue(e, now) { CatchUpFilled(Tick(e), now); }
  }

  lemma SyncFilled(stored: Option<EmissionState>, now: UnixTime)
    ensures Filled(Sync(stored, now))
  {
    CatchUpFilled(Fill(Fetch(stored, now), now), now);
  }

  /** Only the clock of a filled state may still be set. */
  lemma FilledFirst(e: EmissionState, start: UnixTime)
    requires Filled(e)
    ensures FirstAt(Some(e), start) == if e.epochStartedAt == 0 then e.(epochStartedAt := start) else e
  {
  }

  lemma MineFits(e: EmissionState, amount: U64)
    requires Filled(e) && e.totalMined <= e.maxSupply && amount <= RemainingScheduled(e) && amount <= RemainingEpoch(e)
    ensures Filled(Mine(e, amount))
    ensures Mine(e, amount).totalMined == e.totalMined + amount <= e.maxSupply
    ensures Mine(e, amount).epochMined == e.epochMined + amount || amount == 0
    ensures BurnFits(e) ==> BurnFits(Mine(e, amount))
    ensures WithinCap(e) ==> WithinCap(Mine(e, amount))
    ensures Solvent(e) ==> Solvent(Mine(e, amount))
  {
  }

  // ---- Several mints at one time ------------------------------------------

  /** `amount` passes both checks of a mint, or nothing is minted. */
  predicate Affordable(stored: Option<EmissionState>, now: UnixTime, amount: nat) {
    amount == 0 || (amount <= RemainingScheduled(Sync(stored, now)) && amount <= RemainingEpoch(Sync(stored, now)))
  }

  lemma {:induction false} CatchUpArrives(e: EmissionState, now: int)
    requires e.divisor > 0
    ensures !EpochDue(CatchUp(e, now), now)
    decreases if EpochDue(e, now) then now - e.epochStartedAt else 0
  {
    if EpochDue(e, now) { CatchUpArrives(Tick(e), now); }
  }

  /** Synchronising again at the time of a mint finds what the mint left, to the unit. */
  lemma MintSpends(stored: Option<EmissionState>, now: UnixTime, amount: U64)
    requires 0 < amount && Affordable(stored, now, amount)
    ensures var e := Sync(stored, now); var f := Sync(Some(Mine(e, amount)), now);
            RemainingScheduled(f) == RemainingScheduled(e) - amount && RemainingEpoch(f) == RemainingEpoch(e) - amount
  {
    hide Fill, Fetch, CatchUp, NextEpochScheduled;
    var e := Sync(stored, now);
    CatchUpArrives(FirstAt(stored, now), now);
    SyncFilled(stored, now);
    MineFits(e, amount);
    FilledFirst(Mine(e, amount), now);
    NotDue(FirstAt(Some(Mine(e, amount)), now), now);
  }

  lemma NotDue(e: EmissionState, now: int)
    requires e.divisor > 0 && !EpochDue(e, now)
    ensures CatchUp(e, now) == e
  {
  }

  // ---- The largest reward -------------------------------------------------

  /** No epoch of the schedule pays more than this. */
  function LargestReward(supply: nat, divisor: nat): nat
    requires divisor > 0
  {
    if supply / divisor < divisor then divisor - 1 else supply / divisor
  }

  lemma ScheduleAtMost(supply: nat, divisor: nat, k: nat)
    requires divisor > 0
    ensures Schedule(supply, divisor, k) <= LargestReward(supply, divisor)
  {
    var left := Left(supply, divisor, k);
    QuotientMonotone(left, supply, divisor);
    if left >= divisor { QuotientMonotone(divisor, left, divisor); }
  }

  lemma QuotientMonotone(m: nat, n: nat, d: nat)
    requires d > 0 && m <= n
    ensures m / d <= n / d
  {
    var p, q := m / d, n / d;
    assert m == p * d + m % d && n == q * d + n % d;
    if p > q {
      assert (p - q) * d == p * d - q * d;
      Product(p - q, d);
    }
  }
}
