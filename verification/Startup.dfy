/** Starting a chain: validating a genesis state and loading it. */
module Startup {
  import opened Outcomes
  import opened Integers
  import opened Types
  import opened Emission
  import opened Conservation
  import opened Limits
  import opened Machine
  import opened Minting
  import opened Singles
  import opened Verdicts

  datatype GenesisState = GenesisState(
    anchors: seq<Addr>,
    accounts: seq<Account>,
    vouches: seq<Vouch>,
    vouchCount: nat,
    escrows: seq<Escrow>,
    escrowCount: nat,
    awards: seq<Award>,
    awardCount: nat,
    evidenceIds: seq<nat>, // of the scoped evidence vouches, which the stores here do not hold
    evidenceCount: nat,
    emission: EmissionState)

  /** Ids are distinct and below the counter. */
  predicate Numbered(ids: seq<nat>, count: nat) {
    && (forall i | 0 <= i < |ids| :: ids[i] < count)
    && (forall i, j | 0 <= i < j < |ids| :: ids[i] != ids[j])
  }

  function AddressOf(a: Account): Addr { a.address }
  function VouchId(v: Vouch): nat { v.id }
  function EscrowId(e: Escrow): nat { e.id }
  function AwardId(a: Award): nat { a.id }

  function Keys<K, V>(records: seq<V>, key: V -> K): (keys: seq<K>)
    ensures |keys| == |records|
  {
    seq(|records|, i requires 0 <= i < |records| => key(records[i]))
  }

  predicate Different(names: seq<Addr>) {
    forall i, j | 0 <= i < j < |names| :: names[i] != names[j]
  }

  predicate EmissionValid(e: EmissionState) {
    && e.maxSupply > 0 && e.epochLength > 0 && e.divisor > 0 && e.currentEpoch > 0
    && e.totalMined <= e.maxSupply && e.totalBurned <= e.maxSupply - e.totalMined
    && e.epochMined <= e.epochScheduled
  }

  predicate ValidGenesis(g: GenesisState) {
    && Different(Keys(g.accounts, AddressOf)) && Numbered(Keys(g.vouches, VouchId), g.vouchCount)
    && Numbered(Keys(g.escrows, EscrowId), g.escrowCount) && Numbered(Keys(g.awards, AwardId), g.awardCount)
    && Numbered(g.evidenceIds, g.evidenceCount)
    && EmissionValid(g.emission)
    && Different(g.anchors) && forall i | 0 <= i < |g.anchors| :: g.anchors[i] != ""
  }

  // ---- Validation ---------------------------------------------------------

  method CheckNumbered(ids: seq<nat>, count: nat) returns (ok: bool)
    ensures ok <==> Numbered(ids, count)
  {
    var seen: set<nat> := {};
    for i := 0 to |ids|
      invariant seen == set k | 0 <= k < i :: ids[k]
      invariant Numbered(ids[..i], count)
    {
      if ids[i] in seen { return false; }
      if ids[i] >= count { return false; }
      seen := seen + {ids[i]};
    }
    assert ids[..|ids|] == ids;
    return true;
  }

  method CheckDifferent(names: seq<Addr>) returns (ok: bool)
    ensures ok <==> Different(names)
  {
    var seen: set<Addr> := {};
    for i := 0 to |names|
      invariant seen == set k | 0 <= k < i :: names[k]
      invariant Different(names[..i])
    {
      if names[i] in seen { return false; }
      seen := seen + {names[i]};
    }
    assert names[..|names|] == names;
    return true;
  }

  /** The validation of a genesis state: local maps of seen ids, then the emission bounds, then the anchors. */
  method Validate(g: GenesisState) returns (ok: bool)
    ensures ok <==> ValidGenesis(g)
  {
    ok := CheckDifferent(Keys(g.accounts, AddressOf));
    if !ok { return; }
    ok := CheckNumbered(Keys(g.vouches, VouchId), g.vouchCount);
    if !ok { return; }
    ok := CheckNumbered(Keys(g.escrows, EscrowId), g.escrowCount);
    if !ok { return; }
    ok := CheckNumbered(Keys(g.awards, AwardId), g.awardCount);
    if !ok { return; }
    ok := CheckNumbered(g.evidenceIds, g.evidenceCount);
    if !ok { return; }
    var e := g.emission;
    if e.maxSupply == 0 || e.epochLength == 0 || e.divisor == 0 || e.currentEpoch == 0 { return false; }
    if RemainingScheduled(e) == 0 && (e.totalMined > e.maxSupply || e.totalBurned > e.maxSupply - e.totalMined) { return false; }
    if e.epochMined > e.epochScheduled { return false; }
    for i := 0 to |g.anchors|
      invariant forall k | 0 <= k < i :: g.anchors[k] != ""
    {
      if g.anchors[i] == "" { return false; }
    }
    ok := CheckDifferent(g.anchors);
  }

  // ---- Loading ------------------------------------------------------------

  /** A store holds the last record written under each key. */
  function Stored<K(==), V>(records: seq<V>, key: V -> K): map<K, V> {
    if records == [] then map[]
    else
      var n := |records| - 1;
      Stored(records[..n], key)[key(records[n]) := records[n]]
  }

  /** A genesis without a clock starts its first epoch at the first block. */
  function StartEmission(e: EmissionState, now: UnixTime): EmissionState {
    var e := if e.maxSupply == 0 then Default(0) else e;
    if e.genesisTime == 0 then e.(genesisTime := now, epochStartedAt := now) else e
  }

  /** The state that loading `g` at the first block leaves: no bond, dispute or gate. */
  function Loaded(g: GenesisState, now: UnixTime): State {
    State(Stored(g.accounts, AddressOf), Stored(g.vouches, VouchId), g.vouchCount, Stored(g.escrows, EscrowId), g.escrowCount,
          map[], 0, map[], 0, map[], 0, Stored(g.awards, AwardId), g.awardCount, Some(StartEmission(g.emission, now)))
  }

  lemma {:induction false} StoredUnderKeys<K, V>(records: seq<V>, key: V -> K)
    ensures forall k | k in Stored(records, key) ::
              exists i | 0 <= i < |records| :: records[i] == Stored(records, key)[k] && key(records[i]) == k
    decreases |records|
  {
    if records != [] { StoredUnderKeys(records[..|records| - 1], key); }
  }

  /** What validation does not check, and a run needs: parties are registered, unregistered accounts are
      empty, escrows carry no verdicts, and the coin there is and may still be mined fits 64 bits. */
  ghost predicate Fundable(g: GenesisState, now: UnixTime) {
    var accounts := Stored(g.accounts, AddressOf);
    && (forall a | a in g.accounts && !a.registered :: a.balance == 0)
    && (forall v | v in g.vouches :: Known(accounts, v.from))
    && (forall e | e in g.escrows :: GenesisEscrow(e) && Known(accounts, e.payer) && Known(accounts, e.payee))
    && Supply(Loaded(g, now)) + g.emission.maxSupply - g.emission.totalMined < TWO64
  }

  /** The trust roots: the loaded parameters, or else what the environment configures. */
  function LoadedEnv(env: Env, g: GenesisState): Env {
    if g.anchors == [] then env else env.(anchors := g.anchors)
  }

  /** Loading a valid and fundable genesis gives a state in which books, custody, gates and awards are in
      order, so that the run theorems about them start from it. */
  lemma LoadedIsGenesis(g: GenesisState, now: UnixTime)
    requires ValidGenesis(g) && Fundable(g, now)
    ensures Genesis(Loaded(g, now)) && GatesSound(Loaded(g, now), now) && AwardsNumbered(Loaded(g, now))
  {
    hide Stored, Supply, RemainingScheduled;
    var s := Loaded(g, now);
    StoredUnderKeys(g.accounts, AddressOf);
    StoredUnderKeys(g.vouches, VouchId);
    StoredUnderKeys(g.escrows, EscrowId);
    StoredUnderKeys(g.awards, AwardId);
    forall id | id in s.awards
      ensures id < s.awardSeq
    {
      var i :| 0 <= i < |g.awards| && g.awards[i] == s.awards[id] && AwardId(g.awards[i]) == id;
      assert Keys(g.awards, AwardId)[i] == id;
    }
    forall id | id in s.vouches
      ensures id < s.vouchSeq && Known(s.accounts, s.vouches[id].from)
    {
      var i :| 0 <= i < |g.vouches| && g.vouches[i] == s.vouches[id] && VouchId(g.vouches[i]) == id;
      assert Keys(g.vouches, VouchId)[i] == id;
    }
    forall id | id in s.escrows
      ensures s.escrows[id].id == id < s.escrowSeq && GenesisEscrow(s.escrows[id]) && EscrowKnown(s.accounts, s.escrows[id])
    {
      var i :| 0 <= i < |g.escrows| && g.escrows[i] == s.escrows[id] && EscrowId(g.escrows[i]) == id;
      assert Keys(g.escrows, EscrowId)[i] == id;
    }
  }

  /** Validation does not bound the reward of the first epoch. Over the runs from a valid genesis no
      emission total wraps if and only if the first burn fits in 64 bits, and mined plus burned stays
      within the cap if and only if the supply covers it; unless no epoch boundary can ever be reached. */
  lemma LoadedEmissionIff(env: Env, g: GenesisState, now: UnixTime)
    requires ValidGenesis(g) && Fundable(g, now)
    ensures var s := Loaded(g, now); var e := FirstAt(s.emission, now);
            && ((forall txs: seq<Tx>, t: UnixTime, u: UnixTime | InOrder(now, txs) && Clock(now, txs) <= t <= u ::
                   StaysExact(Run(env, s, txs).emission, t, u))
                <==> (EpochDue(e, LAST_TIME) ==> e.totalBurned + RemainingEpoch(e) < TWO64))
            && ((forall txs: seq<Tx>, t: UnixTime, u: UnixTime | InOrder(now, txs) && Clock(now, txs) <= t <= u ::
                   StaysWithinCap(Run(env, s, txs).emission, t, u))
                <==> (EpochDue(e, LAST_TIME) ==> RemainingEpoch(e) <= RemainingScheduled(e)))
  {
    hide Fundable, Loaded, Run, StaysExact, StaysWithinCap, EpochDue;
    LoadedIsGenesis(g, now);
    LoadedWithinCap(g, now);
    FirstAgrees(Loaded(g, now).emission, now);
    NoWrapIff(env, Loaded(g, now), now);
    WithinCapIff(env, Loaded(g, now), now);
  }

  lemma LoadedWithinCap(g: GenesisState, now: UnixTime)
    requires EmissionValid(g.emission)
    ensures WithinCap(First(Loaded(g, now).emission))
  {
  }

  /** A valid genesis in its first epoch starts the schedule of its own cap and divisor exactly when that
      epoch's reward is the first of the schedule, nothing was burned, everything mined was mined in that
      epoch, and its clock can run. */
  lemma LoadedFollowsIff(g: GenesisState, now: UnixTime)
    requires ValidGenesis(g) && g.emission.currentEpoch == 1
    ensures var e := g.emission;
            Follows(Loaded(g, now), e.maxSupply, e.divisor) <==>
              && e.epochScheduled == Reward(e.maxSupply, e.divisor) && e.totalBurned == 0 && e.epochMined == e.totalMined
              && e.epochLength < TWO63 && (e.genesisTime == 0 || e.epochStartedAt > 0)
  {
  }

  /** The default genesis is valid, and its emission starts on the schedule of the module's constants. */
  lemma DefaultGenesis(now: UnixTime)
    ensures var g := GenesisState([], [], [], 0, [], 0, [], 0, [], 0, Default(0));
            && ValidGenesis(g) && Genesis(Loaded(g, now)) && Follows(Loaded(g, now), MAX_SUPPLY, EPOCH_REWARD_DIVISOR)
  {
  }

  // ---- What validation means ----------------------------------------------

  lemma {:induction false} StoredKeys<K, V>(records: seq<V>, key: V -> K)
    ensures forall k :: k in Stored(records, key) <==> exists i | 0 <= i < |records| :: key(records[i]) == k
    decreases |records|
  {
    if records != [] {
      var n := |records| - 1;
      StoredKeys(records[..n], key);
      forall k
        ensures k in Stored(records, key) <==> exists i | 0 <= i < |records| :: key(records[i]) == k
      {
        if k in Stored(records[..n], key) {
          var i :| 0 <= i < |records[..n]| && key(records[..n][i]) == k;
          assert key(records[i]) == k;
        } else if exists i | 0 <= i < |records| :: key(records[i]) == k {
          var i :| 0 <= i < |records| && key(records[i]) == k;
          assert i < n ==> key(records[..n][i]) == k;
        }
      }
    }
  }

  /** Loading a list keeps as many records as there are, exactly when no two share a key. */
  lemma {:induction false} NothingOverwritten<K, V>(records: seq<V>, key: V -> K)
    ensures |Stored(records, key)| <= |records|
    ensures |Stored(records, key)| == |records| <==> forall i, j | 0 <= i < j < |records| :: key(records[i]) != key(records[j])
    decreases |records|
  {
    if records != [] {
      var n := |records| - 1;
      var before, last := records[..n], key(records[n]);
      NothingOverwritten(before, key);
      var m := Stored(before, key);
      SizeOfUpdate(m, last, records[n]);
      KeyTaken(before, key, last);
      assert forall i | 0 <= i < n :: before[i] == records[i];
      if last in m {
        var i :| 0 <= i < n && key(records[i]) == last;
      }
    }
  }

  lemma SizeOfUpdate<K, V>(m: map<K, V>, k: K, v: V)
    ensures |m[k := v]| == |m| + (if k in m then 0 else 1)
  {
    assert m[k := v].Keys == m.Keys + {k};
    assert |m[k := v]| == |m.Keys + {k}| && |m| == |m.Keys|;
    if k in m { assert m.Keys + {k} == m.Keys; }
  }

  lemma KeyTaken<K, V>(records: seq<V>, key: V -> K, k: K)
    ensures k in Stored(records, key) <==> exists i | 0 <= i < |records| :: key(records[i]) == k
  {
    StoredKeys(records, key);
  }

  function Itself(id: nat): nat { id }
  function Name(a: Addr): Addr { a }

  /** Validation accepts exactly the states that load without one record overwriting another, whose ids the
      counters have not reached, whose anchors have names, and whose emission state is within the cap. */
  lemma ValidMeans(g: GenesisState)
    ensures ValidGenesis(g) <==>
              && |Stored(g.accounts, AddressOf)| == |g.accounts| && |Stored(g.vouches, VouchId)| == |g.vouches|
              && |Stored(g.escrows, EscrowId)| == |g.escrows| && |Stored(g.awards, AwardId)| == |g.awards|
              && |Stored(g.evidenceIds, Itself)| == |g.evidenceIds| && |Stored(g.anchors, Name)| == |g.anchors|
              && (forall v | v in g.vouches :: VouchId(v) < g.vouchCount) && (forall e | e in g.escrows :: EscrowId(e) < g.escrowCount)
              && (forall a | a in g.awards :: AwardId(a) < g.awardCount) && (forall id | id in g.evidenceIds :: Itself(id) < g.evidenceCount)
              && "" !in g.anchors
              && var e := g.emission;
              && e.maxSupply > 0 && e.epochLength > 0 && e.divisor > 0 && e.currentEpoch > 0
              && e.totalMined + e.totalBurned <= e.maxSupply && e.epochMined <= e.epochScheduled
  {
    hide Stored, Numbered, Different;
    NamesDiffer(g.accounts, AddressOf);
    NamesDiffer(g.anchors, Name);
    assert Keys(g.anchors, Name) == g.anchors by { assert forall i | 0 <= i < |g.anchors| :: Keys(g.anchors, Name)[i] == Name(g.anchors[i]); }
    NumberedMeans(g.vouches, VouchId, g.vouchCount);
    NumberedMeans(g.escrows, EscrowId, g.escrowCount);
    NumberedMeans(g.awards, AwardId, g.awardCount);
    NumberedMeans(g.evidenceIds, Itself, g.evidenceCount);
    assert Keys(g.evidenceIds, Itself) == g.evidenceIds by {
      assert forall i | 0 <= i < |g.evidenceIds| :: Keys(g.evidenceIds, Itself)[i] == Itself(g.evidenceIds[i]);
    }
  }

  lemma NamesDiffer<V>(records: seq<V>, key: V -> Addr)
    ensures Different(Keys(records, key)) <==> |Stored(records, key)| == |records|
  {
    hide Stored;
    NothingOverwritten(records, key);
    assert forall i | 0 <= i < |records| :: Keys(records, key)[i] == key(records[i]);
  }

  lemma NumberedMeans<V>(records: seq<V>, key: V -> nat, count: nat)
    ensures Numbered(Keys(records, key), count) <==>
              |Stored(records, key)| == |records| && forall r | r in records :: key(r) < count
  {
    hide Stored;
    NothingOverwritten(records, key);
    assert forall i | 0 <= i < |records| :: Keys(records, key)[i] == key(records[i]);
    if forall r | r in records :: key(r) < count {
      forall i | 0 <= i < |records|
        ensures key(records[i]) < count
      {
        assert records[i] in records;
      }
    }
  }
}
