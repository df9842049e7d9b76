/** A concrete gate whose coherent answers cost more than any epoch pays. */
module Crowd {
  import opened Outcomes
  import opened Text
  import opened Types
  import opened Emission
  import opened Gates
  import opened Conservation
  import opened Conserved
  import opened Limits
  import opened Minting
  import opened Scenario

  /** 421 answers at 50 each are 21050, and the first and largest epoch reward is 21000. */
  const SIZE: nat := 421

  function Agent(i: nat): Addr { FormatUint(i) }

  /** The first `n` agents, registered and without coin. */
  function Agents(n: nat): map<Addr, Account> {
    if n == 0 then map[] else Agents(n - 1)[Agent(n - 1) := Account(Agent(n - 1), 0, 0, true, false)]
  }

  function Yes(i: nat): GateAnswer { GateAnswer(Agent(i), "", "yes", true, false) }

  function Chorus(n: nat): (answers: seq<GateAnswer>)
    ensures |answers| == n
  {
    seq(n, i requires 0 <= i < n => Yes(i))
  }

  /** A live gate: its gold commitment is that of the empty answer and the empty salt. */
  function Crowded(sha256: string -> string): Gate {
    Gate(0, JUROR, "", "", sha256(":"), MAX_DRIP_PER_ANSWER, MAX_GATE_ANSWERS, 500, 900, GateOpen, Chorus(SIZE), "", "")
  }

  function Hall(sha256: string -> string): State {
    State(Agents(SIZE), map[], 0, map[], 0, map[], 0, map[], 0, map[0 := Crowded(sha256)], 1, map[], 0, Some(Default(1)))
  }

  lemma {:induction false} AgentsEmpty(n: nat)
    ensures forall a | a in Agents(n) :: Agents(n)[a].balance == 0 && Agents(n)[a].registered
    ensures forall i | 0 <= i < n :: Agent(i) in Agents(n)
  {
    if n > 0 { AgentsEmpty(n - 1); }
  }

  lemma {:induction false} NothingRepeated(n: nat)
    ensures Repeated(n, 0) == 0
  {
    if n > 0 { NothingRepeated(n - 1); }
  }

  lemma HallBooks(sha256: string -> string)
    ensures Books(Hall(sha256))
  {
    hide Agents, Crowded, Default;
    AgentsEmpty(SIZE);
    SumAtMost(Agents(SIZE), BalanceOf, 0);
    NothingRepeated(|Agents(SIZE)|);
    HallKeyed(sha256);
    HallCap(sha256);
  }

  lemma HallKeyed(sha256: string -> string)
    ensures Keyed(Hall(sha256)) && Parties(Hall(sha256))
  {
    hide Agents;
    AgentsEmpty(SIZE);
  }

  lemma HallCap(sha256: string -> string)
    ensures Cap(Hall(sha256)) == MAX_SUPPLY && Mined(Hall(sha256)) == 0
  {
  }

  lemma AgentsDiffer(i: nat, j: nat)
    ensures Agent(i) == Agent(j) ==> i == j
  {
    if Agent(i) == Agent(j) { FormatUintInjective(i, j); }
  }

  lemma HallSound(sha256: string -> string, clock: int)
    requires clock >= 900
    ensures GatesSound(Hall(sha256), clock)
  {
    hide Agents, FormatUint;
    AgentsEmpty(SIZE);
    var answers := Chorus(SIZE);
    forall i, j | 0 <= i < j < SIZE
      ensures answers[i].agent != answers[j].agent
    {
      AgentsDiffer(i, j);
    }
  }

  lemma {:induction false} ChorusCount(n: nat, k: nat)
    requires k <= n
    ensures Count(Chorus(n), "yes", k) == k
  {
    if k > 0 { ChorusCount(n, k - 1); }
  }

  lemma {:induction false} ChorusCoherent(g: Gate, i: nat)
    requires i <= |g.answers| && forall j | 0 <= j < |g.answers| :: g.answers[j] == Yes(j)
    ensures CoherentFrom(g, "yes", i) == |g.answers| - i
    decreases |g.answers| - i
  {
    if i < |g.answers| { ChorusCoherent(g, i + 1); }
  }

  lemma ChorusWins(n: nat)
    requires n > 0
    ensures Winning(Chorus(n), "") == "yes"
  {
    ChorusCount(n, n);
  }

  lemma OnlyOpening(sha256: string -> string, gold: string, salt: string)
    requires CollisionFree(sha256) && EqualFold(sha256(gold + ":" + salt), sha256(":"))
    ensures gold == "" && salt == ""
  {
    assert gold + ":" + salt == ":";
    assert |gold + ":" + salt| == |gold| + 1 + |salt|;
  }

  /** The gate meets every hypothesis of `OversizedNeverSettles`: nobody in this crowd is ever paid. */
  lemma CrowdNeverPaid(sha256: string -> string, clock: int)
    requires CollisionFree(sha256) && clock >= 900
    ensures var s := Hall(sha256);
            && Books(s) && GatesSound(s, clock) && Follows(s, MAX_SUPPLY, EPOCH_REWARD_DIVISOR)
            && 0 in s.gates && Oversized(Court(sha256), s.gates[0], MAX_SUPPLY, EPOCH_REWARD_DIVISOR)
            && forall i | 0 <= i < SIZE :: Coherent(s.gates[0].answers[i], Winning(s.gates[0].answers, ""))
  {
    hide Books, GatesSound, Agents, Agent, CollisionFree, EqualFold;
    HallBooks(sha256);
    HallSound(sha256, clock);
    DefaultOnSchedule(1);
    var g := Crowded(sha256);
    ChorusWins(SIZE);
    ChorusCoherent(g, 0);
    forall gold: string, salt: string | EqualFold(Commitment(Court(sha256), gold, salt), g.goldCommit)
      ensures g.drip * CoherentFrom(g, Winning(g.answers, gold), 0) > LargestReward(MAX_SUPPLY, EPOCH_REWARD_DIVISOR)
    {
      OnlyOpening(sha256, gold, salt);
    }
  }
}
