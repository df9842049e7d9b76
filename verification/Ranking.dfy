/** The ranking loop itself, over arrays updated in place. */
module Ranking {
  import opened Types
  import opened Vectors
  import opened PageRank
  import opened Reputation
  import opened Scores

  /** Vouches and jobs as weighted edges; self-loops and edges without weight are dropped. */
  method CollectEdges(vouches: seq<Vouch>, jobs: seq<JobEdge>) returns (edges: seq<TrustEdge>)
    ensures edges == Edges(vouches, jobs)
  {
    edges := [];
    for i := 0 to |vouches|
      invariant edges == VouchEdges(vouches[..i])
    {
      var v := vouches[i];
      assert vouches[..i + 1][..i] == vouches[..i];
      if v.from == v.to || v.stake == 0 { continue; }
      edges := edges + [TrustEdge(v.from, v.to, v.stake as real)];
    }
    assert vouches[..|vouches|] == vouches;
    for i := 0 to |jobs|
      invariant edges == VouchEdges(vouches) + JobEdges(jobs[..i])
    {
      var j := jobs[i];
      assert jobs[..i + 1][..i] == jobs[..i];
      if j.payer == j.payee || j.amount == 0 { continue; }
      edges := edges + [TrustEdge(j.payer, j.payee, j.amount as real)];
    }
    assert jobs[..|jobs|] == jobs;
  }

  method CollectNodes(edges: seq<TrustEdge>, anchors: seq<Addr>) returns (nodeSet: set<Addr>)
    ensures nodeSet == Nodes(edges, anchors)
  {
    nodeSet := {};
    for i := 0 to |edges|
      invariant nodeSet == Nodes(edges[..i], [])
    {
      assert edges[..i + 1] == edges[..i] + [edges[i]];
      nodeSet := nodeSet + {edges[i].from};
      nodeSet := nodeSet + {edges[i].to};
    }
    assert edges[..|edges|] == edges;
    for i := 0 to |anchors|
      invariant nodeSet == Nodes(edges, anchors[..i])
    {
      assert anchors[..i + 1] == anchors[..i] + [anchors[i]];
      if anchors[i] != "" { nodeSet := nodeSet + {anchors[i]}; }
    }
    assert anchors[..|anchors|] == anchors;
  }

  /** Lists the node set in some order and indexes it. */
  method ListNodes(edges: seq<TrustEdge>, anchors: seq<Addr>, nodeSet: set<Addr>) returns (nodes: seq<Addr>, idx: map<Addr, nat>)
    requires nodeSet == Nodes(edges, anchors)
    ensures Listing(nodes, idx, edges, anchors)
  {
    nodes, idx := [], map[];
    var rest := nodeSet;
    while rest != {}
      invariant rest <= nodeSet && idx.Keys == nodeSet - rest
      invariant forall a | a in idx :: idx[a] < |nodes| && nodes[idx[a]] == a
      invariant forall i | 0 <= i < |nodes| :: nodes[i] in idx && idx[nodes[i]] == i
      decreases |rest|
    {
      var nd :| nd in rest;
      rest := rest - {nd};
      idx := idx[nd := |nodes|];
      nodes := nodes + [nd];
    }
  }

  method OutWeights(edges: seq<TrustEdge>, nodes: seq<Addr>, idx: map<Addr, nat>, ghost anchors: seq<Addr>) returns (outWeight: array<real>)
    requires Listing(nodes, idx, edges, anchors)
    ensures fresh(outWeight) && outWeight.Length == |nodes|
    ensures forall i | 0 <= i < |nodes| :: outWeight[i] == Weight(edges, nodes[i], |edges|)
  {
    outWeight := new real[|nodes|](i => 0.0);
    for k := 0 to |edges|
      invariant forall i | 0 <= i < |nodes| :: outWeight[i] == Weight(edges, nodes[i], k)
    {
      var e := edges[k];
      assert e in edges;
      assert forall i | 0 <= i < |nodes| :: nodes[i] == e.from <==> i == idx[e.from];
      outWeight[idx[e.from]] := outWeight[idx[e.from]] + e.weight;
    }
  }

  method NormaliseEdges(edges: seq<TrustEdge>, nodes: seq<Addr>, idx: map<Addr, nat>, outWeight: array<real>, ghost anchors: seq<Addr>)
    returns (flows: seq<Flow>)
    requires Weighted(edges) && Listing(nodes, idx, edges, anchors) && outWeight.Length == |nodes|
    requires forall i | 0 <= i < |nodes| :: outWeight[i] == Weight(edges, nodes[i], |edges|)
    ensures flows == Flows(edges, idx, |edges|)
  {
    hide Weight, Share;
    flows := [];
    for k := 0 to |edges|
      invariant flows == Flows(edges, idx, k)
    {
      var e := edges[k];
      assert e in edges;
      var f := idx[e.from];
      var tw := outWeight[f];
      ShareIsQuotient(edges, e);
      if tw == 0.0 { continue; }
      flows := flows + [Flow(f, idx[e.to], e.weight / tw)];
    }
  }

  method Personalise(nodes: seq<Addr>, idx: map<Addr, nat>, anchors: seq<Addr>) returns (p: array<real>)
    requires |nodes| > 0 && forall a | a in idx :: idx[a] < |nodes|
    ensures fresh(p) && p[..] == Teleport(nodes, idx, anchors)
  {
    var anchorIdx: seq<nat> := [];
    PresentInRange(nodes, idx, anchors, |anchors|);
    for k := 0 to |anchors|
      invariant anchorIdx == Present(anchors, idx, k)
    {
      if anchors[k] in idx { anchorIdx := anchorIdx + [idx[anchors[k]]]; }
    }
    if |anchorIdx| == 0 {
      p := new real[|nodes|](i => 1.0 / |nodes| as real);
    } else {
      p := new real[|nodes|](i => 0.0);
      var share := 1.0 / |anchorIdx| as real;
      for k := 0 to |anchorIdx|
        invariant p[..] == Placed(|nodes|, anchorIdx, share, k)
      {
        p[anchorIdx[k]] := share;
      }
    }
  }

  method DanglingMass(ghost sink: seq<bool>, outWeight: array<real>, r: array<real>) returns (mass: real)
    requires |sink| == outWeight.Length == r.Length
    requires forall i | 0 <= i < r.Length :: outWeight[i] == 0.0 <==> sink[i]
    ensures mass == Dangling(sink, r[..], r.Length)
  {
    mass := 0.0;
    for i := 0 to r.Length
      invariant mass == Dangling(sink, r[..], i)
    {
      if outWeight[i] == 0.0 { mass := mass + r[i]; }
    }
  }

  /** One round: the base term for every node, then the contribution of every edge. */
  method Round(ghost g: Network, outWeight: array<real>, flows: seq<Flow>, p: array<real>, r: array<real>, next: array<real>)
    requires WellFormed(g) && flows == g.flows && p[..] == g.p
    requires outWeight.Length == r.Length == next.Length == p.Length
    requires forall i | 0 <= i < p.Length :: outWeight[i] == 0.0 <==> g.sink[i]
    requires next != r && next != p && next != outWeight
    modifies next
    ensures next[..] == Next(g, r[..])
  {
    hide Leaving, NonNegative, Base, Dangling;
    ghost var rank := r[..];
    var n := p.Length;
    var danglingMass := DanglingMass(g.sink, outWeight, r);
    for i := 0 to n
      invariant r[..] == rank && p[..] == g.p
      invariant forall v | 0 <= v < i :: next[v] == Base(g.p[v], danglingMass)
    {
      next[i] := Base(p[i], danglingMass);
    }
    for k := 0 to |flows|
      invariant r[..] == rank
      invariant forall v | 0 <= v < n :: next[v] == Base(g.p[v], danglingMass) + DAMPING * Inflow(flows, rank, v, k)
    {
      var e := flows[k];
      Carried(e.share, r[e.from], Inflow(flows, rank, e.to, k));
      next[e.to] := next[e.to] + DAMPING * e.share * r[e.from];
    }
  }

  lemma Carried(share: real, rank: real, before: real)
    ensures DAMPING * (before + share * rank) == DAMPING * before + DAMPING * share * rank
  {
  }

  method Change(next: array<real>, r: array<real>) returns (delta: real)
    requires next.Length == r.Length
    ensures delta == Distance(next[..], r[..])
  {
    delta := 0.0;
    ghost var gaps := Gaps(next[..], r[..]);
    for i := 0 to r.Length
      invariant delta == Total(gaps[..i])
    {
      assert gaps[..i + 1][..i] == gaps[..i];
      delta := delta + Abs(next[i] - r[i]);
    }
    assert gaps[..|gaps|] == gaps;
  }

  /** Power iteration: two arrays that change places every round, until little changes. */
  method PowerIterate(ghost g: Network, outWeight: array<real>, flows: seq<Flow>, p: array<real>) returns (r: array<real>, ghost rounds: nat)
    requires WellFormed(g) && flows == g.flows && p[..] == g.p && outWeight.Length == p.Length
    requires forall i | 0 <= i < p.Length :: outWeight[i] == 0.0 <==> g.sink[i]
    ensures Stops(g, rounds) && r[..] == Iterate(g, rounds)
  {
    hide Leaving, NonNegative, InRange, Next, Gaps;
    var n := p.Length;
    r := new real[n](i requires 0 <= i < n reads p => p[i]);
    var next := new real[n](i => 0.0);
    rounds := 0;
    assert r[..] == g.p;
    for iter := 0 to MAX_ITERATIONS
      invariant fresh(r) && fresh(next) && next != r && r.Length == next.Length == n
      invariant p[..] == g.p && forall i | 0 <= i < n :: outWeight[i] == 0.0 <==> g.sink[i]
      invariant rounds == iter && r[..] == Iterate(g, rounds)
      invariant forall j | 0 <= j < rounds :: Delta(g, j) >= TOLERANCE
    {
      Round(g, outWeight, flows, p, r, next);
      var delta := Change(next, r);
      r, next := next, r;
      rounds := rounds + 1;
      assert delta == Delta(g, iter);
      if delta < TOLERANCE { break; }
    }
  }

  method ReadOut(ghost edges: seq<TrustEdge>, ghost anchors: seq<Addr>, nodes: seq<Addr>, ghost idx: map<Addr, nat>, r: array<real>)
    returns (scores: map<Addr, real>)
    requires Listing(nodes, idx, edges, anchors) && r.Length == |nodes|
    ensures scores.Keys == idx.Keys
    ensures forall a | a in idx :: scores[a] == r[idx[a]]
  {
    hide Nodes;
    scores := map[];
    for i := 0 to |nodes|
      invariant forall a :: a in scores <==> a in nodes[..i]
      invariant forall a | a in scores :: a in idx && scores[a] == r[idx[a]]
    {
      assert nodes[..i + 1] == nodes[..i] + [nodes[i]];
      scores := scores[nodes[i] := r[i]];
    }
    assert nodes[..|nodes|] == nodes;
    ListingLists(nodes, idx, edges, anchors);
  }

  /** Anchor-rooted PageRank over vouches and paid jobs. */
  method Rank(vouches: seq<Vouch>, jobs: seq<JobEdge>, anchors: seq<Addr>) returns (scores: map<Addr, real>)
    ensures Weighted(Edges(vouches, jobs)) && IsScores(Edges(vouches, jobs), anchors, scores)
  {
    hide Weighted, WellFormed, Edges, Teleport, Iterate, Stops, Flows;
    EdgesWeighted(vouches, jobs);
    var edges := CollectEdges(vouches, jobs);
    var nodeSet := CollectNodes(edges, anchors);
    if nodeSet == {} { return map[]; }
    var nodes, idx := ListNodes(edges, anchors, nodeSet);
    assert |nodes| > 0 by {
      var a :| a in nodeSet;
      assert a in idx;
    }
    ghost var g := Graph(edges, anchors, nodes, idx);
    GraphWellFormed(edges, anchors, nodes, idx);
    var outWeight := OutWeights(edges, nodes, idx, anchors);
    var flows := NormaliseEdges(edges, nodes, idx, outWeight, anchors);
    var p := Personalise(nodes, idx, anchors);
    var r, rounds := PowerIterate(g, outWeight, flows, p);
    scores := ReadOut(edges, anchors, nodes, idx, r);
    assert ScoredBy(edges, anchors, scores, nodes, idx, rounds);
  }
}
