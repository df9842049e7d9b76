/** Personalised PageRank over the reals: one round of power iteration and what it preserves. */
module PageRank {
  import opened Vectors

  const DAMPING: real := 0.85
  const MAX_ITERATIONS: nat := 100
  const TOLERANCE: real := 0.000000001

  /** The part of node `from`'s rank that flows to node `to`. */
  datatype Flow = Flow(from: nat, to: nat, share: real)

  /** A trust graph made ready for iteration: `sink[i]` says that node `i` has no out-edge, and
      `p` is where teleported and dangling rank goes. */
  datatype Network = Network(sink: seq<bool>, flows: seq<Flow>, p: seq<real>)

  predicate InRange(flows: seq<Flow>, n: nat) {
    forall j | 0 <= j < |flows| :: flows[j].from < n && flows[j].to < n
  }

  /** Shares leaving node `v` among the first `k` flows. */
  function Leaving(flows: seq<Flow>, v: nat, k: nat): real
    requires k <= |flows|
  {
    if k == 0 then 0.0
    else Leaving(flows, v, k - 1) + (if flows[k - 1].from == v then flows[k - 1].share else 0.0)
  }

  /** Every node that is not a sink passes on exactly its whole rank. */
  predicate WellFormed(g: Network) {
    && |g.sink| == |g.p| && NonNegative(g.p)
    && InRange(g.flows, |g.p|)
    && (forall j | 0 <= j < |g.flows| :: g.flows[j].share > 0.0)
    && (forall v | 0 <= v < |g.p| :: Leaving(g.flows, v, |g.flows|) == if g.sink[v] then 0.0 else 1.0)
  }

  /** The part of a rank that a flow carries. */
  function Carry(share: real, rank: real): real {
    share * rank
  }

  /** Rank that the first `k` flows carry into node `v`. */
  function Inflow(flows: seq<Flow>, r: seq<real>, v: nat, k: nat): real
    requires InRange(flows, |r|) && k <= |flows|
  {
    if k == 0 then 0.0
    else Inflow(flows, r, v, k - 1) + (if flows[k - 1].to == v then Carry(flows[k - 1].share, r[flows[k - 1].from]) else 0.0)
  }

  /** Rank held by the sinks among the first `k` nodes. */
  function Dangling(sink: seq<bool>, r: seq<real>, k: nat): real
    requires |sink| == |r| && k <= |r|
  {
    if k == 0 then 0.0 else Dangling(sink, r, k - 1) + (if sink[k - 1] then r[k - 1] else 0.0)
  }

  /** A node's part of the teleported and of the dangling rank. */
  function Base(p: real, dangling: real): real {
    (1.0 - DAMPING) * p + DAMPING * dangling * p
  }

  /** What a round makes of node `v`'s rank. */
  function NextAt(g: Network, r: seq<real>, v: nat): real
    requires WellFormed(g) && |r| == |g.p| && v < |r|
  {
    Base(g.p[v], Dangling(g.sink, r, |r|)) + DAMPING * Inflow(g.flows, r, v, |g.flows|)
  }

  /** One round of power iteration. */
  function Next(g: Network, r: seq<real>): (s: seq<real>)
    requires WellFormed(g) && |r| == |g.p|
    ensures |s| == |r|
  {
    seq(|r|, v requires 0 <= v < |r| => NextAt(g, r, v))
  }

  /** The `k`-th iterate. */
  function Iterate(g: Network, k: nat): (r: seq<real>)
    requires WellFormed(g)
    ensures |r| == |g.p|
  {
    if k == 0 then g.p else Next(g, Iterate(g, k - 1))
  }

  // ---- Mass ---------------------------------------------------------------

  function Inflows(flows: seq<Flow>, r: seq<real>, k: nat): (s: seq<real>)
    requires InRange(flows, |r|) && k <= |flows|
    ensures |s| == |r|
  {
    seq(|r|, v requires 0 <= v < |r| => Inflow(flows, r, v, k))
  }

  function Outflows(flows: seq<Flow>, r: seq<real>, k: nat): (s: seq<real>)
    requires k <= |flows|
    ensures |s| == |r|
  {
    seq(|r|, v requires 0 <= v < |r| => Leaving(flows, v, k) * r[v])
  }

  lemma InflowsStep(flows: seq<Flow>, r: seq<real>, k: nat, x: real)
    requires InRange(flows, |r|) && 0 < k <= |flows| && x == flows[k - 1].share * r[flows[k - 1].from]
    ensures var to, before := flows[k - 1].to, Inflows(flows, r, k - 1);
            Inflows(flows, r, k) == before[to := before[to] + x]
  {
    var f, before, after := flows[k - 1], Inflows(flows, r, k - 1), Inflows(flows, r, k);
    forall v | 0 <= v < |r|
      ensures after[v] == before[v] + (if f.to == v then x else 0.0)
    {
    }
  }

  lemma OutflowsStep(flows: seq<Flow>, r: seq<real>, k: nat, x: real)
    requires InRange(flows, |r|) && 0 < k <= |flows| && x == flows[k - 1].share * r[flows[k - 1].from]
    ensures var from, before := flows[k - 1].from, Outflows(flows, r, k - 1);
            Outflows(flows, r, k) == before[from := before[from] + x]
  {
    var f, before, after := flows[k - 1], Outflows(flows, r, k - 1), Outflows(flows, r, k);
    forall v | 0 <= v < |r|
      ensures after[v] == before[v] + (if f.from == v then x else 0.0)
    {
      var left := Leaving(flows, v, k - 1);
      assert Leaving(flows, v, k) == left + (if f.from == v then f.share else 0.0);
      Distribute(left, f.share, r[v]);
    }
  }

  /** What flows in somewhere has flowed out somewhere. */
  lemma {:induction false} InflowsAreOutflows(flows: seq<Flow>, r: seq<real>, k: nat)
    requires InRange(flows, |r|) && k <= |flows|
    ensures Total(Inflows(flows, r, k)) == Total(Outflows(flows, r, k))
  {
    if k == 0 {
      TotalZero(Inflows(flows, r, 0));
      TotalZero(Outflows(flows, r, 0));
    } else {
      InflowsAreOutflows(flows, r, k - 1);
      var f := flows[k - 1];
      var x := f.share * r[f.from];
      InflowsStep(flows, r, k, x);
      OutflowsStep(flows, r, k, x);
      TotalUpdate(Inflows(flows, r, k - 1), f.to, x);
      TotalUpdate(Outflows(flows, r, k - 1), f.from, x);
    }
  }

  lemma Distribute(a: real, b: real, x: real)
    ensures (a + b) * x == a * x + b * x
  {
  }

  function Held(sink: seq<bool>, r: seq<real>): (s: seq<real>)
    requires |sink| == |r|
    ensures |s| == |r|
  {
    seq(|r|, v requires 0 <= v < |r| => if sink[v] then r[v] else 0.0)
  }

  lemma {:induction false} DanglingIsHeld(sink: seq<bool>, r: seq<real>, k: nat)
    requires |sink| == |r| && k <= |r|
    ensures Dangling(sink, r, k) == Total(Held(sink, r)[..k])
  {
    if k > 0 {
      DanglingIsHeld(sink, r, k - 1);
      assert Held(sink, r)[..k][..k - 1] == Held(sink, r)[..k - 1];
    }
  }

  /** All rank is either held by sinks or passed on along the flows. */
  lemma RankSplits(g: Network, r: seq<real>)
    requires WellFormed(g) && |r| == |g.p|
    ensures Dangling(g.sink, r, |r|) + Total(Inflows(g.flows, r, |g.flows|)) == Total(r)
  {
    var held, outs := Held(g.sink, r), Outflows(g.flows, r, |g.flows|);
    InflowsAreOutflows(g.flows, r, |g.flows|);
    DanglingIsHeld(g.sink, r, |r|);
    assert held[..|r|] == held;
    forall v | 0 <= v < |r|
      ensures r[v] == held[v] + outs[v]
    {
      assert Leaving(g.flows, v, |g.flows|) == if g.sink[v] then 0.0 else 1.0;
    }
    TotalSum(held, outs, r);
  }

  /** The damped linear part of a round. */
  function Damped(g: Network, x: seq<real>): (s: seq<real>)
    requires WellFormed(g) && |x| == |g.p|
    ensures |s| == |x|
  {
    seq(|x|, v requires 0 <= v < |x| =>
      DAMPING * (Dangling(g.sink, x, |x|) * g.p[v] + Inflow(g.flows, x, v, |g.flows|)))
  }

  /** When the teleport vector is a distribution, the linear part keeps exactly the damped share of the mass. */
  lemma DampedMass(g: Network, x: seq<real>)
    requires WellFormed(g) && |x| == |g.p| && Total(g.p) == 1.0
    ensures Total(Damped(g, x)) == DAMPING * Total(x)
  {
    hide Dangling, Inflow, Total, Leaving;
    var d, ins := Dangling(g.sink, x, |x|), Inflows(g.flows, x, |g.flows|);
    var teleported := seq(|x|, v requires 0 <= v < |x| => d * g.p[v]);
    var both := seq(|x|, v requires 0 <= v < |x| => teleported[v] + ins[v]);
    TotalScale(g.p, d, teleported);
    TotalSum(teleported, ins, both);
    RankSplits(g, x);
    forall v | 0 <= v < |x|
      ensures Damped(g, x)[v] == DAMPING * both[v]
    {
      assert teleported[v] == d * g.p[v] && ins[v] == Inflow(g.flows, x, v, |g.flows|);
    }
    TotalScale(both, DAMPING, Damped(g, x));
  }

  lemma NextIsDamped(g: Network, r: seq<real>, v: nat)
    requires WellFormed(g) && |r| == |g.p| && v < |r|
    ensures Next(g, r)[v] == (1.0 - DAMPING) * g.p[v] + Damped(g, r)[v]
  {
  }

  lemma NextMass(g: Network, r: seq<real>)
    requires WellFormed(g) && |r| == |g.p| && Total(g.p) == 1.0
    ensures Total(Next(g, r)) == (1.0 - DAMPING) + DAMPING * Total(r)
  {
    hide Total, NextAt, Leaving;
    var teleport := seq(|r|, v requires 0 <= v < |r| => (1.0 - DAMPING) * g.p[v]);
    TotalScale(g.p, 1.0 - DAMPING, teleport);
    DampedMass(g, r);
    forall v | 0 <= v < |r|
      ensures Next(g, r)[v] == teleport[v] + Damped(g, r)[v]
    {
      NextIsDamped(g, r, v);
    }
    TotalSum(teleport, Damped(g, r), Next(g, r));
  }

  lemma Product(x: real, y: real)
    requires x >= 0.0 && y >= 0.0
    ensures x * y >= 0.0
    ensures x > 0.0 && y > 0.0 ==> x * y > 0.0
  {
  }

  lemma {:induction false} InflowNonNegative(flows: seq<Flow>, r: seq<real>, v: nat, k: nat)
    requires InRange(flows, |r|) && k <= |flows| && NonNegative(r)
    requires forall j | 0 <= j < |flows| :: flows[j].share > 0.0
    ensures Inflow(flows, r, v, k) >= 0.0
  {
    if k > 0 {
      InflowNonNegative(flows, r, v, k - 1);
      Product(flows[k - 1].share, r[flows[k - 1].from]);
    }
  }

  lemma {:induction false} DanglingNonNegative(sink: seq<bool>, r: seq<real>, k: nat)
    requires |sink| == |r| && k <= |r| && NonNegative(r)
    ensures Dangling(sink, r, k) >= 0.0
  {
    if k > 0 { DanglingNonNegative(sink, r, k - 1); }
  }

  lemma NextNonNegative(g: Network, r: seq<real>)
    requires WellFormed(g) && |r| == |g.p| && NonNegative(r)
    ensures NonNegative(Next(g, r))
  {
    DanglingNonNegative(g.sink, r, |r|);
    forall v | 0 <= v < |r|
      ensures Next(g, r)[v] >= 0.0
    {
      InflowNonNegative(g.flows, r, v, |g.flows|);
      Product(DAMPING * Dangling(g.sink, r, |r|), g.p[v]);
    }
  }

  /** Every iterate is a distribution: no entry is negative and the entries sum to exactly 1. */
  lemma {:induction false} IterateKeepsMass(g: Network, k: nat)
    requires WellFormed(g) && Total(g.p) == 1.0
    ensures NonNegative(Iterate(g, k)) && Total(Iterate(g, k)) == 1.0
  {
    if k > 0 {
      IterateKeepsMass(g, k - 1);
      NextNonNegative(g, Iterate(g, k - 1));
      NextMass(g, Iterate(g, k - 1));
    }
  }

  // ---- Contraction --------------------------------------------------------

  lemma AbsScale(c: real, x: real)
    requires c >= 0.0
    ensures Abs(c * x) == c * Abs(x)
  {
  }

  lemma CarriedGap(share: real, x: real, y: real)
    requires share >= 0.0
    ensures Abs(Carry(share, x) - Carry(share, y)) == Carry(share, Abs(x - y))
  {
  }

  lemma AddGaps(p: real, q: real, g: real, r: real, s: real, h: real)
    requires Abs(p - q) <= g && Abs(r - s) <= h
    ensures Abs((p + r) - (q + s)) <= g + h
  {
  }

  /** The inflow of a difference is at most the inflow of the gaps. */
  lemma {:induction false} InflowGap(flows: seq<Flow>, a: seq<real>, b: seq<real>, v: nat, k: nat)
    requires |a| == |b| && InRange(flows, |a|) && k <= |flows|
    requires forall j | 0 <= j < |flows| :: flows[j].share > 0.0
    ensures Abs(Inflow(flows, a, v, k) - Inflow(flows, b, v, k)) <= Inflow(flows, Gaps(a, b), v, k)
  {
    hide Carry, Abs;
    if k > 0 {
      InflowGap(flows, a, b, v, k - 1);
      var f := flows[k - 1];
      CarriedGap(f.share, a[f.from], b[f.from]);
      if f.to == v {
        AddGaps(Inflow(flows, a, v, k - 1), Inflow(flows, b, v, k - 1), Inflow(flows, Gaps(a, b), v, k - 1),
                Carry(f.share, a[f.from]), Carry(f.share, b[f.from]), Carry(f.share, Gaps(a, b)[f.from]));
      }
    }
  }

  lemma {:induction false} DanglingGap(sink: seq<bool>, a: seq<real>, b: seq<real>, k: nat)
    requires |sink| == |a| == |b| && k <= |a|
    ensures Abs(Dangling(sink, a, k) - Dangling(sink, b, k)) <= Dangling(sink, Gaps(a, b), k)
  {
    if k > 0 { DanglingGap(sink, a, b, k - 1); }
  }

  lemma NextGap(g: Network, a: seq<real>, b: seq<real>, v: nat)
    requires WellFormed(g) && |a| == |b| == |g.p| && v < |a|
    ensures Abs(Next(g, a)[v] - Next(g, b)[v]) <= Damped(g, Gaps(a, b))[v]
  {
    hide Dangling, Inflow, Next, Leaving;
    NextIsDamped(g, a, v);
    NextIsDamped(g, b, v);
    var da, db := Dangling(g.sink, a, |a|), Dangling(g.sink, b, |b|);
    var ia, ib := Inflow(g.flows, a, v, |g.flows|), Inflow(g.flows, b, v, |g.flows|);
    DanglingGap(g.sink, a, b, |a|);
    InflowGap(g.flows, a, b, v, |g.flows|);
    CombineGaps(g.p[v], da, db, Dangling(g.sink, Gaps(a, b), |a|), ia, ib, Inflow(g.flows, Gaps(a, b), v, |g.flows|));
  }

  lemma ScaledGap(p: real, x: real, y: real, d: real)
    requires p >= 0.0 && Abs(x - y) <= d
    ensures Abs(x * p - y * p) <= d * p
  {
    AbsScale(p, x - y);
    ScaleMonotone(p, Abs(x - y), d);
    assert p * (x - y) == x * p - y * p;
  }

  lemma LinearGap(u: real, v: real, w: real, x: real, y: real, z: real)
    requires Abs(u - v) <= w && Abs(x - y) <= z
    ensures Abs(DAMPING * (u + x) - DAMPING * (v + y)) <= DAMPING * (w + z)
  {
  }

  lemma CombineGaps(p: real, da: real, db: real, d: real, ia: real, ib: real, i: real)
    requires p >= 0.0 && Abs(da - db) <= d && Abs(ia - ib) <= i
    ensures Abs(DAMPING * (da * p + ia) - DAMPING * (db * p + ib)) <= DAMPING * (d * p + i)
  {
    ScaledGap(p, da, db, d);
    LinearGap(da * p, db * p, d * p, ia, ib, i);
  }

  lemma ScaleMonotone(c: real, x: real, y: real)
    requires c >= 0.0 && x <= y
    ensures c * x <= c * y
  {
  }

  /** A round brings any two vectors closer by at least the damping factor. */
  lemma NextContracts(g: Network, a: seq<real>, b: seq<real>)
    requires WellFormed(g) && |a| == |b| == |g.p| && Total(g.p) == 1.0
    ensures Distance(Next(g, a), Next(g, b)) <= DAMPING * Distance(a, b)
  {
    forall v | 0 <= v < |a|
      ensures Gaps(Next(g, a), Next(g, b))[v] <= Damped(g, Gaps(a, b))[v]
    {
      NextGap(g, a, b, v);
    }
    TotalMonotone(Gaps(Next(g, a), Next(g, b)), Damped(g, Gaps(a, b)));
    DampedMass(g, Gaps(a, b));
  }

  /** The change of a round, which the loop compares with its tolerance. */
  function Delta(g: Network, k: nat): real
    requires WellFormed(g)
  {
    Distance(Iterate(g, k + 1), Iterate(g, k))
  }

  /** The change shrinks geometrically: after `k` rounds it is at most `2 * 0.85^k`. */
  lemma {:induction false} DeltaShrinks(g: Network, k: nat)
    requires WellFormed(g) && Total(g.p) == 1.0
    ensures Delta(g, k + 1) <= DAMPING * Delta(g, k)
    ensures Delta(g, k) <= 2.0 * Power(DAMPING, k)
  {
    hide WellFormed, NextAt, Gaps, Total;
    NextContracts(g, Iterate(g, k + 1), Iterate(g, k));
    if k == 0 {
      IterateKeepsMass(g, 0);
      IterateKeepsMass(g, 1);
      DistanceBound(Iterate(g, 1), Iterate(g, 0));
    } else {
      DeltaShrinks(g, k - 1);
    }
  }

  /** The iterates draw together: from the `j`-th on, no two are further apart than `2 * 0.85^j`. */
  lemma {:induction false} IteratesDrawTogether(g: Network, j: nat, k: nat)
    requires WellFormed(g) && Total(g.p) == 1.0 && j <= k
    ensures Distance(Iterate(g, j), Iterate(g, k)) <= 2.0 * Power(DAMPING, j)
  {
    hide WellFormed, NextAt, Gaps, Total;
    if j == 0 {
      IterateKeepsMass(g, 0);
      IterateKeepsMass(g, k);
      DistanceBound(Iterate(g, 0), Iterate(g, k));
    } else {
      IteratesDrawTogether(g, j - 1, k - 1);
      NextContracts(g, Iterate(g, j - 1), Iterate(g, k - 1));
    }
  }

  /** The last change bounds all later ones: after the round in which the loop stops, no further iteration
      however long moves the ranks by more than 0.85 / 0.15 of that change. */
  lemma {:induction false} StoppedForGood(g: Network, j: nat, k: nat)
    requires WellFormed(g) && Total(g.p) == 1.0 && j < k
    ensures (1.0 - DAMPING) * Distance(Iterate(g, j + 1), Iterate(g, k)) <= DAMPING * Delta(g, j)
    decreases k - j
  {
    hide WellFormed, NextAt, Gaps, Total, Iterate, Power;
    var a, b, c := Iterate(g, j + 1), Iterate(g, j + 2), Iterate(g, k);
    DeltaShrinks(g, j);
    if j + 1 == k {
      DistanceSelf(a);
      DistancePositive(Iterate(g, j + 1), Iterate(g, j));
    } else {
      StoppedForGood(g, j + 1, k);
      DistanceTriangle(a, b, c);
      DistanceSymmetric(a, b);
    }
  }

  lemma DistanceSelf(a: seq<real>)
    ensures Distance(a, a) == 0.0
  {
    TotalZero(Gaps(a, a));
  }

  lemma DistancePositive(a: seq<real>, b: seq<real>)
    requires |a| == |b|
    ensures Distance(a, b) >= 0.0
  {
    TotalNonNegative(Gaps(a, b));
  }

  /** Every distribution that a round leaves alone is within `2 * 0.85^k` of the `k`-th iterate;
      in particular there is at most one. */
  lemma {:induction false} IteratesApproach(g: Network, rank: seq<real>, k: nat)
    requires WellFormed(g) && Total(g.p) == 1.0
    requires |rank| == |g.p| && NonNegative(rank) && Total(rank) == 1.0 && Next(g, rank) == rank
    ensures Distance(Iterate(g, k), rank) <= 2.0 * Power(DAMPING, k)
  {
    if k == 0 {
      DistanceBound(g.p, rank);
    } else {
      IteratesApproach(g, rank, k - 1);
      NextContracts(g, Iterate(g, k - 1), rank);
    }
  }

  /** When a round changes little, the result is close to the fixed point: the remaining error is at
      most 0.85 / 0.15 of the last change. */
  lemma StoppedClose(g: Network, rank: seq<real>, k: nat)
    requires WellFormed(g) && Total(g.p) == 1.0
    requires |rank| == |g.p| && Next(g, rank) == rank
    ensures (1.0 - DAMPING) * Distance(Iterate(g, k + 1), rank) <= DAMPING * Delta(g, k)
  {
    var a, b := Iterate(g, k), Iterate(g, k + 1);
    NextContracts(g, a, rank);
    DistanceTriangle(a, b, rank);
    DistanceSymmetric(a, b);
  }

  lemma DistanceSymmetric(a: seq<real>, b: seq<real>)
    requires |a| == |b|
    ensures Distance(a, b) == Distance(b, a)
  {
    assert Gaps(a, b) == Gaps(b, a);
  }

  lemma FixedPointUnique(g: Network, a: seq<real>, b: seq<real>)
    requires WellFormed(g) && Total(g.p) == 1.0
    requires |a| == |b| == |g.p| && Next(g, a) == a && Next(g, b) == b
    ensures a == b
  {
    NextContracts(g, a, b);
    DistanceZero(a, b);
  }

  // ---- Zero means unreachable ---------------------------------------------

  /** Some teleport target reaches `v` along at most `k` flows. */
  predicate Reached(g: Network, k: nat, v: nat)
    requires WellFormed(g) && v < |g.p|
  {
    g.p[v] > 0.0
    || (k > 0 && exists j | 0 <= j < |g.flows| :: g.flows[j].to == v && Reached(g, k - 1, g.flows[j].from))
  }

  lemma {:induction false} InflowPositive(flows: seq<Flow>, r: seq<real>, v: nat, k: nat)
    requires InRange(flows, |r|) && k <= |flows| && NonNegative(r)
    requires forall j | 0 <= j < |flows| :: flows[j].share > 0.0
    ensures Inflow(flows, r, v, k) > 0.0 <==> exists j | 0 <= j < k :: flows[j].to == v && r[flows[j].from] > 0.0
  {
    if k > 0 {
      InflowPositive(flows, r, v, k - 1);
      InflowNonNegative(flows, r, v, k - 1);
      Product(flows[k - 1].share, r[flows[k - 1].from]);
    }
  }

  lemma NextPositive(g: Network, r: seq<real>, v: nat)
    requires WellFormed(g) && |r| == |g.p| && NonNegative(r) && v < |r|
    ensures Next(g, r)[v] > 0.0
       <==> g.p[v] > 0.0 || exists j | 0 <= j < |g.flows| :: g.flows[j].to == v && r[g.flows[j].from] > 0.0
  {
    var d := DAMPING * Dangling(g.sink, r, |r|);
    DanglingNonNegative(g.sink, r, |r|);
    Product(d, g.p[v]);
    InflowNonNegative(g.flows, r, v, |g.flows|);
    InflowPositive(g.flows, r, v, |g.flows|);
  }

  /** After `k` rounds a node scores more than zero exactly when some teleport target reaches it along
      at most `k` flows; every other node scores exactly zero. */
  lemma {:induction false} PositiveIffReached(g: Network, k: nat, v: nat)
    requires WellFormed(g) && v < |g.p|
    ensures Iterate(g, k)[v] > 0.0 <==> Reached(g, k, v)
    ensures Iterate(g, k)[v] >= 0.0
    decreases k
  {
    if k > 0 {
      var r := Iterate(g, k - 1);
      forall u | 0 <= u < |g.p|
        ensures r[u] >= 0.0 && (r[u] > 0.0 <==> Reached(g, k - 1, u))
      {
        PositiveIffReached(g, k - 1, u);
      }
      NextPositive(g, r, v);
      NextNonNegative(g, r);
    }
  }
}
