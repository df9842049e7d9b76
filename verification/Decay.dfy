/** How little rank gets through: to nodes far from every teleport target, and into a group of nodes from
    outside it. */
module Decay {
  import opened Vectors
  import opened PageRank

  /** Rank held by the nodes of `group`. */
  function Mass(group: seq<bool>, r: seq<real>): real
    requires |group| == |r|
  {
    Total(Held(group, r))
  }

  function Outside(group: seq<bool>): (others: seq<bool>)
    ensures |others| == |group|
  {
    seq(|group|, v requires 0 <= v < |group| => !group[v])
  }

  /** Rank that the flows carry into `group` from nodes outside `from`. */
  function Entering(flows: seq<Flow>, r: seq<real>, from: seq<bool>, group: seq<bool>): real
    requires InRange(flows, |r|) && |from| == |group| == |r|
  {
    Mass(group, Inflows(flows, Held(Outside(from), r), |flows|))
  }

  lemma CarrySplits(share: real, x: real, y: real)
    ensures Carry(share, x + y) == Carry(share, x) + Carry(share, y)
  {
  }

  lemma {:induction false} InflowSplits(flows: seq<Flow>, r: seq<real>, from: seq<bool>, v: nat, k: nat)
    requires InRange(flows, |r|) && |from| == |r| && k <= |flows|
    ensures Inflow(flows, r, v, k) == Inflow(flows, Held(from, r), v, k) + Inflow(flows, Held(Outside(from), r), v, k)
  {
    hide Carry;
    if k > 0 {
      InflowSplits(flows, r, from, v, k - 1);
      var u := flows[k - 1].from;
      CarrySplits(flows[k - 1].share, Held(from, r)[u], Held(Outside(from), r)[u]);
    }
  }

  /** The flows bring no more than there is. */
  lemma InflowsAtMost(g: Network, r: seq<real>)
    requires WellFormed(g) && |r| == |g.p| && NonNegative(r)
    ensures Total(Inflows(g.flows, r, |g.flows|)) <= Total(r)
    ensures NonNegative(Inflows(g.flows, r, |g.flows|))
  {
    RankSplits(g, r);
    DanglingNonNegative(g.sink, r, |r|);
    forall v | 0 <= v < |r|
      ensures Inflows(g.flows, r, |g.flows|)[v] >= 0.0
    {
      InflowNonNegative(g.flows, r, v, |g.flows|);
    }
  }

  /** No teleport goes to the group. */
  predicate Unrooted(g: Network, group: seq<bool>) {
    |group| == |g.p| && forall v | 0 <= v < |group| && group[v] :: g.p[v] == 0.0
  }

  lemma UnrootedNext(g: Network, r: seq<real>, from: seq<bool>, v: nat)
    requires WellFormed(g) && |r| == |g.p| == |from| && v < |r| && g.p[v] == 0.0
    ensures Next(g, r)[v]
         == DAMPING * (Inflow(g.flows, Held(from, r), v, |g.flows|) + Inflow(g.flows, Held(Outside(from), r), v, |g.flows|))
  {
    InflowSplits(g.flows, r, from, v, |g.flows|);
  }

  /** After a round, a group without teleport holds at most the damped share of what `from` held and of
      what entered it from elsewhere. */
  lemma MassStep(g: Network, r: seq<real>, from: seq<bool>, group: seq<bool>)
    requires WellFormed(g) && |r| == |g.p| == |from| && NonNegative(r) && Unrooted(g, group)
    ensures Mass(group, Next(g, r)) <= DAMPING * (Mass(from, r) + Entering(g.flows, r, from, group))
  {
    hide Leaving, Inflow, Next, Total;
    var h, o := Held(from, r), Held(Outside(from), r);
    var near, far := Inflows(g.flows, h, |g.flows|), Inflows(g.flows, o, |g.flows|);
    InflowsAtMost(g, h);
    var both := seq(|r|, v requires 0 <= v < |r| => near[v] + Held(group, far)[v]);
    var bound := seq(|r|, v requires 0 <= v < |r| => DAMPING * both[v]);
    TotalSum(near, Held(group, far), both);
    TotalScale(both, DAMPING, bound);
    forall v | 0 <= v < |r|
      ensures Held(group, Next(g, r))[v] <= bound[v]
    {
      if group[v] { UnrootedNext(g, r, from, v); }
    }
    TotalMonotone(Held(group, Next(g, r)), bound);
  }

  // ---- Mass within one ----------------------------------------------------

  lemma NextAtMost(g: Network, r: seq<real>)
    requires WellFormed(g) && |r| == |g.p| && NonNegative(r) && Total(g.p) <= 1.0 && Total(r) <= 1.0
    ensures Total(Next(g, r)) <= 1.0
  {
    hide Total, NextAt, Leaving;
    var d := Dangling(g.sink, r, |r|);
    var ins := Inflows(g.flows, r, |g.flows|);
    var teleported := seq(|r|, v requires 0 <= v < |r| => ((1.0 - DAMPING) + DAMPING * d) * g.p[v]);
    var damped := seq(|r|, v requires 0 <= v < |r| => DAMPING * ins[v]);
    DanglingNonNegative(g.sink, r, |r|);
    ScaledAtMost(g.p, (1.0 - DAMPING) + DAMPING * d, teleported);
    TotalScale(ins, DAMPING, damped);
    forall v | 0 <= v < |r|
      ensures Next(g, r)[v] == teleported[v] + damped[v]
    {
      NextParts(g, r, v);
    }
    TotalSum(teleported, damped, Next(g, r));
    RankSplits(g, r);
    WithinOne(Total(teleported), Total(damped), d, Total(ins));
  }

  lemma ScaledAtMost(p: seq<real>, c: real, scaled: seq<real>)
    requires |p| == |scaled| && c >= 0.0 && Total(p) <= 1.0 && forall i | 0 <= i < |p| :: scaled[i] == c * p[i]
    ensures Total(scaled) <= c
  {
    hide Total;
    TotalScale(p, c, scaled);
    ProductAtMost(c, Total(p));
  }

  lemma ProductAtMost(c: real, x: real)
    requires c >= 0.0 && x <= 1.0
    ensures c * x <= c
  {
  }

  lemma WithinOne(teleported: real, damped: real, d: real, ins: real)
    requires teleported <= (1.0 - DAMPING) + DAMPING * d && damped == DAMPING * ins && d + ins <= 1.0
    ensures teleported + damped <= 1.0
  {
  }

  lemma NextParts(g: Network, r: seq<real>, v: nat)
    requires WellFormed(g) && |r| == |g.p| && v < |r|
    ensures Next(g, r)[v] == ((1.0 - DAMPING) + DAMPING * Dangling(g.sink, r, |r|)) * g.p[v] + DAMPING * Inflow(g.flows, r, v, |g.flows|)
  {
    Distribute(1.0 - DAMPING, DAMPING * Dangling(g.sink, r, |r|), g.p[v]);
  }

  /** No iterate holds more than one in all, even if teleport has lost mass to anchors listed twice. */
  lemma {:induction false} IterateAtMost(g: Network, k: nat)
    requires WellFormed(g) && Total(g.p) <= 1.0
    ensures NonNegative(Iterate(g, k)) && Total(Iterate(g, k)) <= 1.0
  {
    if k > 0 {
      IterateAtMost(g, k - 1);
      NextNonNegative(g, Iterate(g, k - 1));
      NextAtMost(g, Iterate(g, k - 1));
    }
  }

  // ---- Far from the roots -------------------------------------------------

  /** The nodes that no teleport target reaches along fewer than `k` flows. */
  function Far(g: Network, k: nat): (group: seq<bool>)
    requires WellFormed(g)
    ensures |group| == |g.p|
  {
    seq(|g.p|, v requires 0 <= v < |g.p| => k == 0 || !Reached(g, k - 1, v))
  }

  lemma {:induction false} NothingFlows(flows: seq<Flow>, r: seq<real>, v: nat, k: nat)
    requires InRange(flows, |r|) && k <= |flows|
    requires forall j | 0 <= j < |flows| && flows[j].to == v :: r[flows[j].from] == 0.0
    ensures Inflow(flows, r, v, k) == 0.0
  {
    if k > 0 { NothingFlows(flows, r, v, k - 1); }
  }

  /** Whatever flows to a node `k` flows away comes from nodes at least `k - 1` flows away. */
  lemma FarFromNear(g: Network, r: seq<real>, k: nat)
    requires WellFormed(g) && |r| == |g.p| && k > 0
    ensures Unrooted(g, Far(g, k)) && Entering(g.flows, r, Far(g, k - 1), Far(g, k)) == 0.0
  {
    var near := Held(Outside(Far(g, k - 1)), r);
    var entering := Held(Far(g, k), Inflows(g.flows, near, |g.flows|));
    forall v | 0 <= v < |r|
      ensures entering[v] == 0.0 && (Far(g, k)[v] ==> g.p[v] == 0.0)
    {
      if Far(g, k)[v] {
        assert !Reached(g, k - 1, v);
        NothingFlows(g.flows, near, v, |g.flows|);
      }
    }
    TotalZero(entering);
  }

  lemma NothingHeld(group: seq<bool>, r: seq<real>)
    requires |group| == |r| && forall v | 0 <= v < |r| && group[v] :: r[v] == 0.0
    ensures Mass(group, r) == 0.0
  {
    TotalZero(Held(group, r));
  }

  lemma MassAtMost(group: seq<bool>, r: seq<real>)
    requires |group| == |r| && NonNegative(r)
    ensures Mass(group, r) <= Total(r)
  {
    TotalMonotone(Held(group, r), r);
  }

  lemma {:induction false} PowerPositive(x: real, k: nat)
    requires x > 0.0
    ensures Power(x, k) > 0.0
  {
    if k > 0 {
      PowerPositive(x, k - 1);
      Product(x, Power(x, k - 1));
    }
  }

  /** Rank decays per hop: all nodes that no teleport target reaches along fewer than `k` flows hold
      together at most `0.85^k`, after any number of rounds and however many they are. */
  lemma {:induction false} FarMass(g: Network, k: nat, rounds: nat)
    requires WellFormed(g) && Total(g.p) <= 1.0
    ensures Mass(Far(g, k), Iterate(g, rounds)) <= Power(DAMPING, k)
    decreases k
  {
    hide WellFormed, Reached, Inflow, Next, Total, NextAt;
    IterateAtMost(g, rounds);
    if k == 0 {
      MassAtMost(Far(g, 0), Iterate(g, rounds));
    } else if rounds == 0 {
      FarFromNear(g, g.p, k);
      NothingHeld(Far(g, k), g.p);
      PowerPositive(DAMPING, k);
    } else {
      var r := Iterate(g, rounds - 1);
      IterateAtMost(g, rounds - 1);
      FarFromNear(g, r, k);
      MassStep(g, r, Far(g, k - 1), Far(g, k));
      FarMass(g, k - 1, rounds - 1);
    }
  }

  // ---- A group and what enters it -----------------------------------------

  /** What a group makes of the rank that enters it: if no teleport goes to it and in no round more than
      `x` enters from outside, its members hold together at most 0.85 / 0.15 of `x`, whatever flows they
      keep among themselves. */
  lemma {:induction false} GroupMass(g: Network, group: seq<bool>, x: real, k: nat)
    requires WellFormed(g) && Unrooted(g, group) && x >= 0.0
    requires forall j | 0 <= j < k :: Entering(g.flows, Iterate(g, j), group, group) <= x
    ensures (1.0 - DAMPING) * Mass(group, Iterate(g, k)) <= DAMPING * x
  {
    hide Leaving, Inflow, Next, Total, NextAt, Entering, Mass;
    if k == 0 {
      NothingHeld(group, g.p);
    } else {
      var r := Iterate(g, k - 1);
      GroupMass(g, group, x, k - 1);
      IterateNonNegative(g, k - 1);
      MassStep(g, r, group, group);
      assert Entering(g.flows, r, group, group) <= x;
    }
  }

  lemma {:induction false} IterateNonNegative(g: Network, k: nat)
    requires WellFormed(g)
    ensures NonNegative(Iterate(g, k))
  {
    if k > 0 {
      IterateNonNegative(g, k - 1);
      NextNonNegative(g, Iterate(g, k - 1));
    }
  }
}
