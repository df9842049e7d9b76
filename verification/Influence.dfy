/** How much trust flows from one address to another, counted in the coin the stores say it committed. */
module Influence {
  import opened Sums
  import opened Types
  import opened Vectors
  import opened PageRank
  import opened Reputation
  import opened Scores
  import opened Trust
  import Conservation

  // ---- Coin committed -----------------------------------------------------

  /** Whom the coin went to: one address, or anybody but one. */
  datatype Target = Only(a: Addr) | Except(a: Addr)

  predicate Hits(t: Target, a: Addr) {
    match t
    case Only(b) => a == b
    case Except(b) => a != b
  }

  /** The stake of a vouch of `a` for such an address. */
  ghost function VouchedFor(a: Addr, to: Target): Vouch -> nat {
    (v: Vouch) => if v.from == a && Hits(to, v.to) then v.stake else 0
  }

  /** What `a` paid it on a released escrow. */
  ghost function PaidTo(a: Addr, to: Target): Escrow -> nat {
    (e: Escrow) => if e.payer == a && Hits(to, e.payee) && e.status == Released then e.amount else 0
  }

  /** How often `a` voted for the work in a case. */
  function VotesFor(d: Dispute, a: Addr): nat {
    |set i | 0 <= i < |d.votes| && d.votes[i].accept && d.votes[i].juror == a|
  }

  /** What it earned in a case that the jury accepted, for each vote of `a` that endorsed it. */
  ghost function Endorsed(s: State, a: Addr, to: Target): Dispute -> nat {
    (d: Dispute) => if d.resolution == Accept && d.escrowId in s.escrows && Hits(to, s.escrows[d.escrowId].payee)
         then VotesFor(d, a) * s.escrows[d.escrowId].amount else 0
  }

  /** All coin that `a` has committed toward such addresses: staked on vouches, paid for released work, or endorsed as a
      juror. */
  ghost function CoinToward(s: State, a: Addr, to: Target): nat {
    Sum(s.vouches, VouchedFor(a, to)) + Sum(s.escrows, PaidTo(a, to)) + Sum(s.disputes, Endorsed(s, a, to))
  }

  /** Coin that `a` has committed toward `b`. */
  ghost function CoinFor(s: State, a: Addr, b: Addr): nat {
    CoinToward(s, a, Only(b))
  }

  /** Coin that `a` has committed toward anybody else. */
  ghost function CoinOut(s: State, a: Addr): nat {
    CoinToward(s, a, Except(a))
  }

  // ---- Edges carry exactly that -------------------------------------------

  /** Weight of the edges from `a` to such addresses among the first `k`. */
  function Between(edges: seq<TrustEdge>, a: Addr, to: Target, k: nat): real
    requires k <= |edges|
  {
    if k == 0 then 0.0
    else Between(edges, a, to, k - 1) + (if edges[k - 1].from == a && Hits(to, edges[k - 1].to) then edges[k - 1].weight else 0.0)
  }

  lemma {:induction false} BetweenPrefix(es: seq<TrustEdge>, fs: seq<TrustEdge>, a: Addr, to: Target, k: nat)
    requires k <= |es| && k <= |fs| && es[..k] == fs[..k]
    ensures Between(es, a, to, k) == Between(fs, a, to, k)
  {
    if k > 0 {
      assert es[..k][..k - 1] == es[..k - 1] && fs[..k][..k - 1] == fs[..k - 1];
      assert es[k - 1] == es[..k][k - 1] && fs[k - 1] == fs[..k][k - 1];
      BetweenPrefix(es, fs, a, to, k - 1);
    }
  }

  lemma {:induction false} BetweenConcat(es: seq<TrustEdge>, fs: seq<TrustEdge>, a: Addr, to: Target, k: nat)
    requires k <= |fs|
    ensures Between(es + fs, a, to, |es| + k) == Between(es, a, to, |es|) + Between(fs, a, to, k)
  {
    if k == 0 {
      assert (es + fs)[..|es|] == es[..|es|];
      BetweenPrefix(es + fs, es, a, to, |es|);
    } else {
      BetweenConcat(es, fs, a, to, k - 1);
      assert (es + fs)[|es| + k - 1] == fs[k - 1];
    }
  }

  lemma BetweenOneMore(es: seq<TrustEdge>, f: TrustEdge, a: Addr, to: Target)
    ensures Between(es + [f], a, to, |es| + 1) == Between(es, a, to, |es|) + (if f.from == a && Hits(to, f.to) then f.weight else 0.0)
  {
    BetweenConcat(es, [f], a, to, 1);
  }

  function StakesOf(vouches: seq<Vouch>, a: Addr, to: Target): nat {
    if vouches == [] then 0
    else
      var v := vouches[|vouches| - 1];
      StakesOf(vouches[..|vouches| - 1], a, to) + (if v.from == a && Hits(to, v.to) then v.stake else 0)
  }

  function AmountsOf(jobs: seq<JobEdge>, a: Addr, to: Target): nat {
    if jobs == [] then 0
    else
      var j := jobs[|jobs| - 1];
      AmountsOf(jobs[..|jobs| - 1], a, to) + (if j.payer == a && Hits(to, j.payee) then j.amount else 0)
  }

  lemma {:induction false} VouchEdgesCarry(vouches: seq<Vouch>, a: Addr, to: Target)
    requires !Hits(to, a)
    ensures Between(VouchEdges(vouches), a, to, |VouchEdges(vouches)|) == StakesOf(vouches, a, to) as real
    decreases |vouches|
  {
    if vouches != [] {
      var v, rest := vouches[|vouches| - 1], vouches[..|vouches| - 1];
      VouchEdgesCarry(rest, a, to);
      if !(v.from == v.to || v.stake == 0) { BetweenOneMore(VouchEdges(rest), TrustEdge(v.from, v.to, v.stake as real), a, to); }
    }
  }

  lemma {:induction false} JobEdgesCarry(jobs: seq<JobEdge>, a: Addr, to: Target)
    requires !Hits(to, a)
    ensures Between(JobEdges(jobs), a, to, |JobEdges(jobs)|) == AmountsOf(jobs, a, to) as real
    decreases |jobs|
  {
    if jobs != [] {
      var j, rest := jobs[|jobs| - 1], jobs[..|jobs| - 1];
      JobEdgesCarry(rest, a, to);
      if !(j.payer == j.payee || j.amount == 0) { BetweenOneMore(JobEdges(rest), TrustEdge(j.payer, j.payee, j.amount as real), a, to); }
    }
  }

  lemma {:induction false} AmountsConcat(js: seq<JobEdge>, ks: seq<JobEdge>, a: Addr, to: Target)
    ensures AmountsOf(js + ks, a, to) == AmountsOf(js, a, to) + AmountsOf(ks, a, to)
    decreases |ks|
  {
    if ks == [] {
      assert js + ks == js;
    } else {
      var n := |ks| - 1;
      AmountsConcat(js, ks[..n], a, to);
      assert (js + ks)[..|js + ks| - 1] == js + ks[..n];
    }
  }

  // ---- The stores, below an id --------------------------------------------

  function Below<V>(m: map<nat, V>, n: nat): map<nat, V> {
    map id | id in m && id < n :: m[id]
  }

  lemma SumBelowNext<V>(m: map<nat, V>, n: nat, f: V -> nat)
    ensures Sum(Below(m, n + 1), f) == Sum(Below(m, n), f) + (if n in m then f(m[n]) else 0)
  {
    if n in m {
      SumUpdate(Below(m, n), n, m[n], f);
      assert Below(m, n + 1) == Below(m, n)[n := m[n]];
    } else {
      assert Below(m, n + 1) == Below(m, n);
    }
  }

  lemma NothingBelow<V>(m: map<nat, V>, f: V -> nat)
    ensures Sum(Below(m, 0), f) == 0
  {
    assert Below(m, 0) == map[];
  }

  lemma {:induction false} VouchesCarry(s: State, a: Addr, to: Target, n: nat)
    ensures StakesOf(VouchesBelow(s, n), a, to) == Sum(Below(s.vouches, n), VouchedFor(a, to))
  {
    hide VouchedFor, StakesOf;
    if n == 0 {
      NothingBelow(s.vouches, VouchedFor(a, to));
      NoStakes(a, to);
    } else {
      VouchesCarry(s, a, to, n - 1);
      SumBelowNext(s.vouches, n - 1, VouchedFor(a, to));
      VouchNext(s, a, to, n - 1);
    }
  }

  lemma NoStakes(a: Addr, to: Target)
    ensures StakesOf([], a, to) == 0
  {
  }

  lemma VouchNext(s: State, a: Addr, to: Target, n: nat)
    ensures StakesOf(VouchesBelow(s, n + 1), a, to)
         == StakesOf(VouchesBelow(s, n), a, to) + (if n in s.vouches then VouchedFor(a, to)(s.vouches[n]) else 0)
  {
    var before := VouchesBelow(s, n);
    if n in s.vouches {
      assert (before + [s.vouches[n]])[..|before|] == before;
    } else {
      assert VouchesBelow(s, n + 1) == before;
    }
  }

  lemma AmountsOneMore(jobs: seq<JobEdge>, j: JobEdge, a: Addr, to: Target)
    ensures AmountsOf(jobs + [j], a, to) == AmountsOf(jobs, a, to) + (if j.payer == a && Hits(to, j.payee) then j.amount else 0)
  {
    assert (jobs + [j])[..|jobs|] == jobs;
  }

  lemma {:induction false} JobsCarry(s: State, a: Addr, to: Target, n: nat)
    ensures AmountsOf(JobsBelow(s, n), a, to) == Sum(Below(s.escrows, n), PaidTo(a, to))
  {
    hide PaidTo;
    if n == 0 {
      NothingBelow(s.escrows, PaidTo(a, to));
    } else {
      JobsCarry(s, a, to, n - 1);
      SumBelowNext(s.escrows, n - 1, PaidTo(a, to));
      JobNext(s, a, to, n - 1);
    }
  }

  lemma JobNext(s: State, a: Addr, to: Target, n: nat)
    ensures AmountsOf(JobsBelow(s, n + 1), a, to)
         == AmountsOf(JobsBelow(s, n), a, to) + (if n in s.escrows then PaidTo(a, to)(s.escrows[n]) else 0)
  {
    hide AmountsOf;
    if n in s.escrows && s.escrows[n].status == Released {
      var e := s.escrows[n];
      AmountsOneMore(JobsBelow(s, n), JobEdge(e.payer, e.payee, e.amount), a, to);
    } else {
      assert JobsBelow(s, n + 1) == JobsBelow(s, n);
    }
  }

  /** The votes of `a` for the work, among the first `k`. */
  function VotesAmong(votes: seq<Vote>, a: Addr, k: nat): set<nat>
    requires k <= |votes|
  {
    set i | 0 <= i < k && votes[i].accept && votes[i].juror == a
  }

  lemma VotesNext(votes: seq<Vote>, a: Addr, k: nat)
    requires 0 < k <= |votes|
    ensures |VotesAmong(votes, a, k)| == |VotesAmong(votes, a, k - 1)| + (if votes[k - 1].accept && votes[k - 1].juror == a then 1 else 0)
  {
    var before := VotesAmong(votes, a, k - 1);
    assert VotesAmong(votes, a, k) == if votes[k - 1].accept && votes[k - 1].juror == a then before + {k - 1} else before;
  }

  lemma {:induction false} EndorsementsCarry(votes: seq<Vote>, e: Escrow, a: Addr, to: Target, k: nat)
    requires k <= |votes|
    ensures AmountsOf(Endorsements(votes, e, k), a, to) == if Hits(to, e.payee) then |VotesAmong(votes, a, k)| * e.amount else 0
  {
    hide VotesAmong, AmountsOf;
    if k == 0 {
      NoVotes(votes, e, a, to);
    } else {
      EndorsementsCarry(votes, e, a, to, k - 1);
      VotesNext(votes, a, k);
      OneTimesMore(|VotesAmong(votes, a, k - 1)|, e.amount);
      var v := votes[k - 1];
      if v.accept {
        AmountsOneMore(Endorsements(votes, e, k - 1), JobEdge(v.juror, e.payee, e.amount), a, to);
      } else {
        assert Endorsements(votes, e, k) == Endorsements(votes, e, k - 1);
      }
    }
  }

  lemma NoVotes(votes: seq<Vote>, e: Escrow, a: Addr, to: Target)
    ensures VotesAmong(votes, a, 0) == {} && AmountsOf(Endorsements(votes, e, 0), a, to) == 0
  {
  }

  lemma OneTimesMore(n: nat, amount: nat)
    ensures (n + 1) * amount == n * amount + amount
  {
  }

  lemma {:induction false} CasesCarry(s: State, a: Addr, to: Target, n: nat)
    ensures AmountsOf(EndorsementsBelow(s, n), a, to) == Sum(Below(s.disputes, n), Endorsed(s, a, to))
  {
    if n == 0 {
      NothingBelow(s.disputes, Endorsed(s, a, to));
    } else {
      CasesCarry(s, a, to, n - 1);
      SumBelowNext(s.disputes, n - 1, Endorsed(s, a, to));
      if n - 1 in s.disputes && s.disputes[n - 1].resolution == Accept && s.disputes[n - 1].escrowId in s.escrows {
        var d := s.disputes[n - 1];
        var e := s.escrows[d.escrowId];
        EndorsementsCarry(d.votes, e, a, to, |d.votes|);
        assert VotesAmong(d.votes, a, |d.votes|) == set i | 0 <= i < |d.votes| && d.votes[i].accept && d.votes[i].juror == a;
        AmountsConcat(EndorsementsBelow(s, n - 1), Endorsements(d.votes, e, |d.votes|), a, to);
      } else {
        assert EndorsementsBelow(s, n) == EndorsementsBelow(s, n - 1);
      }
    }
  }

  lemma AllBelow<V>(m: map<nat, V>, n: nat)
    requires forall id | id in m :: id < n
    ensures Below(m, n) == m
  {
  }

  /** From one address to others the trust graph carries exactly the coin that the stores say it has
      committed toward them: no kind of commitment is dropped, and none counts double. */
  lemma EdgesCarryCoin(s: State, a: Addr, to: Target)
    requires Conservation.Keyed(s) && !Hits(to, a)
    ensures Between(TrustEdges(s), a, to, |TrustEdges(s)|) == CoinToward(s, a, to) as real
  {
    var vouches, jobs, cases := VouchesBelow(s, s.vouchSeq), JobsBelow(s, s.escrowSeq), EndorsementsBelow(s, s.disputeSeq);
    VouchEdgesCarry(vouches, a, to);
    JobEdgesCarry(jobs + cases, a, to);
    BetweenConcat(VouchEdges(vouches), JobEdges(jobs + cases), a, to, |JobEdges(jobs + cases)|);
    AmountsConcat(jobs, cases, a, to);
    VouchesCarry(s, a, to, s.vouchSeq);
    JobsCarry(s, a, to, s.escrowSeq);
    CasesCarry(s, a, to, s.disputeSeq);
    AllBelow(s.vouches, s.vouchSeq);
    AllBelow(s.escrows, s.escrowSeq);
    AllBelow(s.disputes, s.disputeSeq);
  }

  // ---- One round, from the stores -----------------------------------------

  predicate NoLoops(edges: seq<TrustEdge>) {
    forall j | 0 <= j < |edges| :: edges[j].from != edges[j].to
  }

  lemma {:induction false} VouchEdgesNoLoops(vouches: seq<Vouch>)
    ensures NoLoops(VouchEdges(vouches))
    decreases |vouches|
  {
    if vouches != [] { VouchEdgesNoLoops(vouches[..|vouches| - 1]); }
  }

  lemma {:induction false} JobEdgesNoLoops(jobs: seq<JobEdge>)
    ensures NoLoops(JobEdges(jobs))
    decreases |jobs|
  {
    if jobs != [] { JobEdgesNoLoops(jobs[..|jobs| - 1]); }
  }

  lemma TrustHasNoLoops(s: State)
    ensures NoLoops(TrustEdges(s))
  {
    VouchEdgesNoLoops(VouchesBelow(s, s.vouchSeq));
    JobEdgesNoLoops(JobsBelow(s, s.escrowSeq) + EndorsementsBelow(s, s.disputeSeq));
  }

  lemma {:induction false} WeightIsBetween(edges: seq<TrustEdge>, a: Addr, k: nat)
    requires k <= |edges| && NoLoops(edges)
    ensures Weight(edges, a, k) == Between(edges, a, Except(a), k)
  {
    if k > 0 { WeightIsBetween(edges, a, k - 1); }
  }

  /** The weight leaving an address is the coin it has committed toward anybody else. */
  lemma WeightIsCoin(s: State, a: Addr)
    requires Conservation.Keyed(s)
    ensures Weight(TrustEdges(s), a, |TrustEdges(s)|) == CoinOut(s, a) as real
  {
    var edges := TrustEdges(s);
    TrustHasNoLoops(s);
    WeightIsBetween(edges, a, |edges|);
    EdgesCarryCoin(s, a, Except(a));
  }

  /** The shares that the first `k` flows carry from node `u` to node `v`. */
  function SharesTo(flows: seq<Flow>, u: nat, v: nat, k: nat): real
    requires k <= |flows|
  {
    if k == 0 then 0.0
    else SharesTo(flows, u, v, k - 1) + (if flows[k - 1].from == u && flows[k - 1].to == v then flows[k - 1].share else 0.0)
  }

  /** What each node passes on to node `v` along the first `k` flows. */
  function PassedTo(flows: seq<Flow>, r: seq<real>, v: nat, k: nat): (passed: seq<real>)
    requires k <= |flows|
    ensures |passed| == |r|
  {
    seq(|r|, u requires 0 <= u < |r| => SharesTo(flows, u, v, k) * r[u])
  }

  lemma PassedNext(flows: seq<Flow>, r: seq<real>, v: nat, k: nat, x: real)
    requires InRange(flows, |r|) && 0 < k <= |flows|
    requires x == if flows[k - 1].to == v then Carry(flows[k - 1].share, r[flows[k - 1].from]) else 0.0
    ensures var u, before := flows[k - 1].from, PassedTo(flows, r, v, k - 1);
            PassedTo(flows, r, v, k) == before[u := before[u] + x]
  {
    var f, before, after := flows[k - 1], PassedTo(flows, r, v, k - 1), PassedTo(flows, r, v, k);
    forall u | 0 <= u < |r|
      ensures after[u] == before[u] + (if u == f.from then x else 0.0)
    {
      var left := SharesTo(flows, u, v, k - 1);
      assert SharesTo(flows, u, v, k) == left + (if f.from == u && f.to == v then f.share else 0.0);
      Distribute(left, f.share, r[u]);
    }
  }

  lemma {:induction false} InflowIsPassed(flows: seq<Flow>, r: seq<real>, v: nat, k: nat)
    requires InRange(flows, |r|) && k <= |flows|
    ensures Inflow(flows, r, v, k) == Total(PassedTo(flows, r, v, k))
  {
    hide Total, Carry;
    if k == 0 {
      TotalZero(PassedTo(flows, r, v, 0));
    } else {
      InflowIsPassed(flows, r, v, k - 1);
      var f, before := flows[k - 1], PassedTo(flows, r, v, k - 1);
      var x := if f.to == v then Carry(f.share, r[f.from]) else 0.0;
      TotalUpdate(before, f.from, x);
      PassedNext(flows, r, v, k, x);
    }
  }

  lemma FlowOf(edges: seq<TrustEdge>, anchors: seq<Addr>, nodes: seq<Addr>, idx: map<Addr, nat>, a: Addr, b: Addr, k: nat)
    requires Weighted(edges) && Listing(nodes, idx, edges, anchors) && a in idx && b in idx && k < |edges|
    ensures var f, e := Flows(edges, idx, |edges|)[k], edges[k];
            (f.from == idx[a] && f.to == idx[b] <==> e.from == a && e.to == b)
            && (e.from == a ==> Weight(edges, a, |edges|) > 0.0 && f.share == e.weight / Weight(edges, a, |edges|))
  {
    hide Share, Weight;
    var e := edges[k];
    assert e in edges;
    assert nodes[idx[e.from]] == e.from && nodes[idx[e.to]] == e.to && nodes[idx[a]] == a && nodes[idx[b]] == b;
    ShareIsQuotient(edges, e);
  }

  lemma {:induction false} SharesAreQuotients(edges: seq<TrustEdge>, anchors: seq<Addr>, nodes: seq<Addr>, idx: map<Addr, nat>, a: Addr, b: Addr, k: nat)
    requires Weighted(edges) && Listing(nodes, idx, edges, anchors) && a in idx && b in idx && k <= |edges|
    ensures var w := Weight(edges, a, |edges|);
            SharesTo(Flows(edges, idx, |edges|), idx[a], idx[b], k) == if w == 0.0 then 0.0 else Between(edges, a, Only(b), k) / w
  {
    hide Share, Weight, Flows, Listing, Weighted;
    var w := Weight(edges, a, |edges|);
    if k > 0 {
      SharesAreQuotients(edges, anchors, nodes, idx, a, b, k - 1);
      FlowOf(edges, anchors, nodes, idx, a, b, k - 1);
      if w > 0.0 { QuotientSum(Between(edges, a, Only(b), k - 1), edges[k - 1].weight, w); }
    } else if w != 0.0 {
      assert 0.0 / w == 0.0;
    }
  }

  /** What `a` passes on to another address `b`: the part of its rank that its coin toward `b` is of all the
      coin it has committed toward others. */
  ghost function Passed(s: State, a: Addr, b: Addr, rank: real): real {
    if CoinOut(s, a) == 0 || a == b then 0.0 else CoinFor(s, a, b) as real / CoinOut(s, a) as real * rank
  }

  ghost function PassedOn(s: State, nodes: seq<Addr>, r: seq<real>, b: Addr): (passed: seq<real>)
    requires |r| == |nodes|
    ensures |passed| == |r|
  {
    seq(|r|, u requires 0 <= u < |r| => Passed(s, nodes[u], b, r[u]))
  }

  /** The rank of those that have committed coin toward nobody. */
  ghost function Idle(s: State, nodes: seq<Addr>, r: seq<real>): (idle: seq<real>)
    requires |r| == |nodes|
    ensures |idle| == |r|
  {
    seq(|r|, u requires 0 <= u < |r| => if CoinOut(s, nodes[u]) == 0 then r[u] else 0.0)
  }

  lemma PassedIsCoin(s: State, anchors: seq<Addr>, nodes: seq<Addr>, idx: map<Addr, nat>, r: seq<real>, b: Addr, u: nat)
    requires Conservation.Keyed(s) && Listing(nodes, idx, TrustEdges(s), anchors) && |r| == |nodes| && b in idx && u < |nodes|
    ensures PassedTo(Flows(TrustEdges(s), idx, |TrustEdges(s)|), r, idx[b], |TrustEdges(s)|)[u] == Passed(s, nodes[u], b, r[u])
  {
    hide Flows, SharesTo, TrustEdges, Weight, CoinToward, Conservation.Keyed;
    var edges, a := TrustEdges(s), nodes[u];
    SharesAreQuotients(edges, anchors, nodes, idx, a, b, |edges|);
    WeightIsCoin(s, a);
    if a == b { NothingToSelf(s, a); } else { EdgesCarryCoin(s, a, Only(b)); }
  }

  lemma {:induction false} NoneBetween(edges: seq<TrustEdge>, a: Addr, k: nat)
    requires NoLoops(edges) && k <= |edges|
    ensures Between(edges, a, Only(a), k) == 0.0
  {
    if k > 0 { NoneBetween(edges, a, k - 1); }
  }

  /** Nobody passes anything on to itself, though it may have vouched for itself. */
  lemma NothingToSelf(s: State, a: Addr)
    ensures Between(TrustEdges(s), a, Only(a), |TrustEdges(s)|) == 0.0
  {
    TrustHasNoLoops(s);
    NoneBetween(TrustEdges(s), a, |TrustEdges(s)|);
  }

  lemma IdleIsHeld(s: State, nodes: seq<Addr>, r: seq<real>)
    requires Conservation.Keyed(s) && |r| == |nodes|
    ensures PageRank.Held(Sinks(TrustEdges(s), nodes), r) == Idle(s, nodes, r)
  {
    hide TrustEdges, Weight, CoinToward, Conservation.Keyed;
    forall u | 0 <= u < |r|
      ensures PageRank.Held(Sinks(TrustEdges(s), nodes), r)[u] == Idle(s, nodes, r)[u]
    {
      WeightIsCoin(s, nodes[u]);
    }
  }

  /** Where rank is teleported: to the listed anchors in equal parts, or to everybody if no anchor is there. */
  function TeleportTo(anchors: seq<Addr>, idx: map<Addr, nat>, b: Addr): real
    requires b in idx
  {
    var there := |set j | 0 <= j < |anchors| && anchors[j] in idx|;
    if there == 0 then 1.0 / (if |idx| == 0 then 1.0 else |idx| as real)
    else if b in anchors then 1.0 / there as real else 0.0
  }

  lemma {:induction false} PresentCounts(anchors: seq<Addr>, idx: map<Addr, nat>, k: nat)
    requires k <= |anchors|
    ensures |Present(anchors, idx, k)| == |set j | 0 <= j < k && anchors[j] in idx|
  {
    var there := set j | 0 <= j < k && anchors[j] in idx;
    if k == 0 {
      assert there == {};
    } else {
      PresentCounts(anchors, idx, k - 1);
      var before := set j | 0 <= j < k - 1 && anchors[j] in idx;
      assert there == if anchors[k - 1] in idx then before + {k - 1} else before;
    }
  }

  lemma {:induction false} ListingSize(nodes: seq<Addr>, idx: map<Addr, nat>, edges: seq<TrustEdge>, anchors: seq<Addr>)
    requires Listing(nodes, idx, edges, anchors)
    ensures |nodes| == |idx|
  {
    ElementCount(nodes, |nodes|);
    assert nodes[..|nodes|] == nodes;
    ListingLists(nodes, idx, edges, anchors);
    assert Elements(nodes) == idx.Keys;
    assert |idx.Keys| == |idx|;
  }

  lemma TeleportIs(nodes: seq<Addr>, idx: map<Addr, nat>, edges: seq<TrustEdge>, anchors: seq<Addr>, b: Addr)
    requires Listing(nodes, idx, edges, anchors) && |nodes| > 0 && b in idx
    ensures Teleport(nodes, idx, anchors)[idx[b]] == TeleportTo(anchors, idx, b)
  {
    hide Teleport;
    TeleportValue(nodes, idx, edges, anchors, b);
    PresentCounts(anchors, idx, |anchors|);
    ListingSize(nodes, idx, edges, anchors);
  }

  /** One round of the ranking, from the stores. An address receives: its part of the teleported rank, which
      is 0.15 and 0.85 of what those hold that have committed coin toward nobody; and 0.85 of what the others
      pass on to it, each in the proportion of its coin toward that address to all the coin it has committed. */
  lemma RoundFromStores(s: State, anchors: seq<Addr>, nodes: seq<Addr>, idx: map<Addr, nat>, r: seq<real>, b: Addr)
    requires Conservation.Keyed(s) && Listing(nodes, idx, TrustEdges(s), anchors) && |r| == |nodes| > 0 && b in idx
    ensures var g := Graph(TrustEdges(s), anchors, nodes, idx);
            && WellFormed(g)
            && Next(g, r)[idx[b]]
               == (0.15 + 0.85 * Total(Idle(s, nodes, r))) * TeleportTo(anchors, idx, b) + 0.85 * Total(PassedOn(s, nodes, r, b))
  {
    hide TrustEdges, Teleport, Flows, Total, Conservation.Keyed, Weighted, Passed, Inflow, Leaving, TeleportTo, Idle, Dangling, Sinks;
    var edges := TrustEdges(s);
    var g := Graph(edges, anchors, nodes, idx);
    GraphWellFormed(edges, anchors, nodes, idx);
    TeleportIs(nodes, idx, edges, anchors, b);
    IdleIsHeld(s, nodes, r);
    DanglingIsHeld(g.sink, r, |r|);
    assert PageRank.Held(g.sink, r)[..|r|] == PageRank.Held(g.sink, r);
    InflowIsPassed(g.flows, r, idx[b], |g.flows|);
    forall u | 0 <= u < |r|
      ensures PassedTo(g.flows, r, idx[b], |g.flows|)[u] == PassedOn(s, nodes, r, b)[u]
    {
      PassedIsCoin(s, anchors, nodes, idx, r, b, u);
    }
    assert PassedTo(g.flows, r, idx[b], |g.flows|) == PassedOn(s, nodes, r, b);
    BaseIs(TeleportTo(anchors, idx, b), Total(Idle(s, nodes, r)));
  }

  lemma BaseIs(p: real, idle: real)
    ensures Base(p, idle) == (0.15 + 0.85 * idle) * p
  {
    Distribute(0.15, 0.85 * idle, p);
  }
}
