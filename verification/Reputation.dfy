/** Reputation scores: vouches and paid jobs become a trust graph, and power iteration ranks it. */
module Reputation {
  import opened Integers
  import opened Types
  import opened Vectors
  import opened PageRank

  /** A completed, paid job. */
  datatype JobEdge = JobEdge(payer: Addr, payee: Addr, amount: U64)

  /** Coin that one address has committed toward another. */
  datatype TrustEdge = TrustEdge(from: Addr, to: Addr, weight: real)

  // ---- From edges to a network --------------------------------------------

  function VouchEdges(vouches: seq<Vouch>): seq<TrustEdge> {
    if vouches == [] then []
    else
      var v, rest := vouches[|vouches| - 1], VouchEdges(vouches[..|vouches| - 1]);
      if v.from == v.to || v.stake == 0 then rest else rest + [TrustEdge(v.from, v.to, v.stake as real)]
  }

  function JobEdges(jobs: seq<JobEdge>): seq<TrustEdge> {
    if jobs == [] then []
    else
      var j, rest := jobs[|jobs| - 1], JobEdges(jobs[..|jobs| - 1]);
      if j.payer == j.payee || j.amount == 0 then rest else rest + [TrustEdge(j.payer, j.payee, j.amount as real)]
  }

  function Edges(vouches: seq<Vouch>, jobs: seq<JobEdge>): seq<TrustEdge> {
    VouchEdges(vouches) + JobEdges(jobs)
  }

  predicate Weighted(edges: seq<TrustEdge>) {
    forall j | 0 <= j < |edges| :: edges[j].weight > 0.0
  }

  /** Both ends of every edge, and every anchor that has a name. */
  function Nodes(edges: seq<TrustEdge>, anchors: seq<Addr>): set<Addr> {
    (set e | e in edges :: e.from) + (set e | e in edges :: e.to) + (set a | a in anchors && a != "")
  }

  /** `nodes` lists the node set in some order, without repetition; `idx` finds each node's place. */
  predicate Listing(nodes: seq<Addr>, idx: map<Addr, nat>, edges: seq<TrustEdge>, anchors: seq<Addr>) {
    && idx.Keys == Nodes(edges, anchors)
    && (forall a | a in idx :: idx[a] < |nodes| && nodes[idx[a]] == a)
    && (forall i | 0 <= i < |nodes| :: nodes[i] in idx && idx[nodes[i]] == i)
  }

  /** Weight leaving `a` among the first `k` edges. */
  function Weight(edges: seq<TrustEdge>, a: Addr, k: nat): real
    requires k <= |edges|
  {
    if k == 0 then 0.0 else Weight(edges, a, k - 1) + (if edges[k - 1].from == a then edges[k - 1].weight else 0.0)
  }

  lemma {:induction false} WeightPositive(edges: seq<TrustEdge>, a: Addr, k: nat)
    requires Weighted(edges) && k <= |edges|
    ensures Weight(edges, a, k) >= 0.0
    ensures Weight(edges, a, k) > 0.0 <==> exists j | 0 <= j < k :: edges[j].from == a
  {
    if k > 0 { WeightPositive(edges, a, k - 1); }
  }

  /** The share of its source's rank that an edge carries. */
  function Share(edges: seq<TrustEdge>, e: TrustEdge): real
    requires Weighted(edges) && e in edges
  {
    WeightPositive(edges, e.from, |edges|);
    e.weight / Weight(edges, e.from, |edges|)
  }

  predicate Covers(idx: map<Addr, nat>, edges: seq<TrustEdge>) {
    forall e | e in edges :: e.from in idx && e.to in idx
  }

  /** The flows of the first `k` edges. */
  function Flows(edges: seq<TrustEdge>, idx: map<Addr, nat>, k: nat): (flows: seq<Flow>)
    requires Weighted(edges) && Covers(idx, edges) && k <= |edges|
    ensures |flows| == k
  {
    seq(k, j requires 0 <= j < k => Flow(idx[edges[j].from], idx[edges[j].to], Share(edges, edges[j])))
  }

  function Sinks(edges: seq<TrustEdge>, nodes: seq<Addr>): (sink: seq<bool>)
    ensures |sink| == |nodes|
  {
    seq(|nodes|, i requires 0 <= i < |nodes| => Weight(edges, nodes[i], |edges|) == 0.0)
  }

  /** Places of those of the first `k` anchors that are nodes, in order and with repetitions. */
  function Present(anchors: seq<Addr>, idx: map<Addr, nat>, k: nat): (present: seq<nat>)
    requires k <= |anchors|
    ensures |present| <= k
  {
    if k == 0 then []
    else Present(anchors, idx, k - 1) + (if anchors[k - 1] in idx then [idx[anchors[k - 1]]] else [])
  }

  /** The vector with `share` at the first `k` listed places and zero elsewhere. */
  function Placed(n: nat, places: seq<nat>, share: real, k: nat): (p: seq<real>)
    requires k <= |places| && forall j | 0 <= j < |places| :: places[j] < n
    ensures |p| == n
  {
    if k == 0 then seq(n, i => 0.0) else Placed(n, places, share, k - 1)[places[k - 1] := share]
  }

  lemma {:induction false} PresentInRange(nodes: seq<Addr>, idx: map<Addr, nat>, anchors: seq<Addr>, k: nat)
    requires k <= |anchors| && forall a | a in idx :: idx[a] < |nodes|
    ensures forall j | 0 <= j < |Present(anchors, idx, k)| :: Present(anchors, idx, k)[j] < |nodes|
  {
    if k > 0 { PresentInRange(nodes, idx, anchors, k - 1); }
  }

  /** Teleport goes to the anchors in equal parts, or to everyone when no anchor is a node. */
  function Teleport(nodes: seq<Addr>, idx: map<Addr, nat>, anchors: seq<Addr>): (p: seq<real>)
    requires |nodes| > 0 && forall a | a in idx :: idx[a] < |nodes|
    ensures |p| == |nodes|
  {
    var present := Present(anchors, idx, |anchors|);
    PresentInRange(nodes, idx, anchors, |anchors|);
    if present == [] then seq(|nodes|, i => 1.0 / |nodes| as real)
    else Placed(|nodes|, present, 1.0 / |present| as real, |present|)
  }

  function Graph(edges: seq<TrustEdge>, anchors: seq<Addr>, nodes: seq<Addr>, idx: map<Addr, nat>): Network
    requires Weighted(edges) && Listing(nodes, idx, edges, anchors) && |nodes| > 0
  {
    Network(Sinks(edges, nodes), Flows(edges, idx, |edges|), Teleport(nodes, idx, anchors))
  }

  lemma {:induction false} EdgesWeighted(vouches: seq<Vouch>, jobs: seq<JobEdge>)
    ensures Weighted(VouchEdges(vouches)) && Weighted(JobEdges(jobs)) && Weighted(Edges(vouches, jobs))
    decreases |vouches| + |jobs|
  {
    if vouches != [] {
      EdgesWeighted(vouches[..|vouches| - 1], jobs);
    } else if jobs != [] {
      EdgesWeighted(vouches, jobs[..|jobs| - 1]);
    }
    if jobs != [] { EdgesWeighted(vouches, jobs[..|jobs| - 1]); }
  }

  // ---- The network is well formed -----------------------------------------

  /** The flows leaving a node are its edges, each scaled by the node's total weight. */
  lemma {:induction false} LeavingIsShareOfWeight(edges: seq<TrustEdge>, idx: map<Addr, nat>, a: Addr, v: nat, k: nat)
    requires Weighted(edges) && Covers(idx, edges) && k <= |edges|
    requires forall j | 0 <= j < |edges| :: idx[edges[j].from] == v <==> edges[j].from == a
    ensures var w := Weight(edges, a, |edges|);
            Leaving(Flows(edges, idx, |edges|), v, k) == if w == 0.0 then 0.0 else Weight(edges, a, k) / w
  {
    hide Share;
    var w, flows := Weight(edges, a, |edges|), Flows(edges, idx, |edges|);
    WeightPositive(edges, a, |edges|);
    if k > 0 {
      LeavingIsShareOfWeight(edges, idx, a, v, k - 1);
      var e := edges[k - 1];
      assert flows[k - 1] == Flow(idx[e.from], idx[e.to], Share(edges, e));
      if e.from == a {
        ShareIsQuotient(edges, e);
        QuotientSum(Weight(edges, a, k - 1), e.weight, w);
      }
    }
  }

  lemma ShareIsQuotient(edges: seq<TrustEdge>, e: TrustEdge)
    requires Weighted(edges) && e in edges
    ensures Weight(edges, e.from, |edges|) > 0.0
    ensures Share(edges, e) == e.weight / Weight(edges, e.from, |edges|)
  {
    WeightPositive(edges, e.from, |edges|);
  }

  lemma QuotientSum(a: real, b: real, w: real)
    requires w > 0.0
    ensures a / w + b / w == (a + b) / w
  {
  }

  lemma QuotientPositive(a: real, w: real)
    requires a > 0.0 && w > 0.0
    ensures a / w > 0.0
  {
  }

  lemma {:induction false} PlacedEntries(n: nat, places: seq<nat>, share: real, k: nat)
    requires k <= |places| && forall j | 0 <= j < |places| :: places[j] < n
    ensures forall i | 0 <= i < n :: Placed(n, places, share, k)[i] == if i in places[..k] then share else 0.0
  {
    if k > 0 {
      PlacedEntries(n, places, share, k - 1);
      assert places[..k] == places[..k - 1] + [places[k - 1]];
    }
  }

  lemma TeleportEntries(nodes: seq<Addr>, idx: map<Addr, nat>, anchors: seq<Addr>)
    requires |nodes| > 0 && forall a | a in idx :: idx[a] < |nodes|
    ensures var p, present := Teleport(nodes, idx, anchors), Present(anchors, idx, |anchors|);
            && NonNegative(p)
            && forall i | 0 <= i < |p| :: p[i] > 0.0 <==> present == [] || i in present
  {
    var present := Present(anchors, idx, |anchors|);
    PresentInRange(nodes, idx, anchors, |anchors|);
    if present == [] {
      QuotientPositive(1.0, |nodes| as real);
    } else {
      QuotientPositive(1.0, |present| as real);
      PlacedEntries(|nodes|, present, 1.0 / |present| as real, |present|);
      assert present[..|present|] == present;
    }
  }

  lemma SharePositive(edges: seq<TrustEdge>, e: TrustEdge)
    requires Weighted(edges) && e in edges
    ensures Share(edges, e) > 0.0
  {
    ShareIsQuotient(edges, e);
    QuotientPositive(e.weight, Weight(edges, e.from, |edges|));
  }

  lemma LeavesWhole(edges: seq<TrustEdge>, idx: map<Addr, nat>, a: Addr, v: nat)
    requires Weighted(edges) && Covers(idx, edges)
    requires forall j | 0 <= j < |edges| :: idx[edges[j].from] == v <==> edges[j].from == a
    ensures Leaving(Flows(edges, idx, |edges|), v, |edges|) == if Weight(edges, a, |edges|) == 0.0 then 0.0 else 1.0
  {
    hide Weight, Leaving, Flows;
    LeavingIsShareOfWeight(edges, idx, a, v, |edges|);
  }

  lemma GraphWellFormed(edges: seq<TrustEdge>, anchors: seq<Addr>, nodes: seq<Addr>, idx: map<Addr, nat>)
    requires Weighted(edges) && Listing(nodes, idx, edges, anchors) && |nodes| > 0
    ensures WellFormed(Graph(edges, anchors, nodes, idx))
  {
    hide Teleport, Weight, Leaving, Share;
    var g := Graph(edges, anchors, nodes, idx);
    TeleportEntries(nodes, idx, anchors);
    forall j | 0 <= j < |g.flows|
      ensures g.flows[j].share > 0.0 && g.flows[j].from < |nodes| && g.flows[j].to < |nodes|
    {
      SharePositive(edges, edges[j]);
    }
    forall v | 0 <= v < |nodes|
      ensures Leaving(g.flows, v, |g.flows|) == if g.sink[v] then 0.0 else 1.0
    {
      LeavesWhole(edges, idx, nodes[v], v);
    }
  }

  // ---- Teleport mass ------------------------------------------------------

  predicate NoRepeats<T(==)>(s: seq<T>) {
    forall i, j | 0 <= i < j < |s| :: s[i] != s[j]
  }

  function Elements<T(==)>(s: seq<T>): set<T> {
    set x | x in s
  }

  lemma {:induction false} ElementCount<T>(s: seq<T>, k: nat)
    requires k <= |s|
    ensures |Elements(s[..k])| <= k
    ensures |Elements(s[..k])| == k <==> NoRepeats(s[..k])
  {
    if k == 0 {
      assert s[..0] == [];
    } else {
      ElementCount(s, k - 1);
      var before, x := Elements(s[..k - 1]), s[k - 1];
      assert s[..k] == s[..k - 1] + [x];
      assert Elements(s[..k]) == before + {x};
      if x in before {
        assert before + {x} == before;
        var i :| 0 <= i < k - 1 && s[i] == x;
        assert s[..k][i] == s[..k][k - 1];
      }
    }
  }

  /** `n` equal parts. */
  function Parts(n: nat, share: real): real {
    n as real * share
  }

  lemma OneMore(n: nat, share: real)
    ensures Parts(n + 1, share) == Parts(n, share) + share
  {
  }

  lemma NoParts(share: real)
    ensures Parts(0, share) == 0.0
  {
  }

  lemma NoElements<T>(s: seq<T>)
    requires s == []
    ensures Elements(s) == {}
  {
  }

  lemma OneMoreElement<T>(s: seq<T>, k: nat)
    requires 0 < k <= |s|
    ensures Elements(s[..k]) == Elements(s[..k - 1]) + {s[k - 1]}
    ensures s[k - 1] in Elements(s[..k - 1]) <==> s[k - 1] in s[..k - 1]
  {
    assert s[..k] == s[..k - 1] + [s[k - 1]];
  }

  lemma {:induction false} PlacedMass(n: nat, places: seq<nat>, share: real, k: nat)
    requires k <= |places| && forall j | 0 <= j < |places| :: places[j] < n
    ensures Total(Placed(n, places, share, k)) == Parts(|Elements(places[..k])|, share)
  {
    hide Parts, Total, Elements;
    if k == 0 {
      assert Elements(places[..0]) == {} by { NoElements(places[..0]); }
      NoParts(share);
      TotalZero(Placed(n, places, share, 0));
    } else {
      PlacedMass(n, places, share, k - 1);
      PlacedEntries(n, places, share, k - 1);
      var p, t, before := Placed(n, places, share, k - 1), places[k - 1], Elements(places[..k - 1]);
      OneMoreElement(places, k);
      if t in before {
        assert before + {t} == before;
        assert p[t := share] == p;
      } else {
        TotalUpdate(p, t, share);
        OneMore(|before|, share);
      }
    }
  }

  lemma {:induction false} UniformMass(n: nat, share: real)
    ensures Total(seq(n, i => share)) == Parts(n, share)
  {
    if n > 0 {
      UniformMass(n - 1, share);
      assert seq(n, i => share)[..n - 1] == seq(n - 1, i => share);
      OneMore(n - 1, share);
    }
  }

  lemma WholeParts(m: nat, n: nat)
    requires n > 0
    ensures Parts(m, 1.0 / n as real) == 1.0 <==> m == n
  {
  }

  lemma NoRepeatsInNothing(s: seq<nat>)
    requires s == []
    ensures NoRepeats(s)
  {
  }

  /** The teleport vector is a distribution exactly when no present anchor is listed twice. */
  lemma TeleportMass(nodes: seq<Addr>, idx: map<Addr, nat>, anchors: seq<Addr>)
    requires |nodes| > 0 && forall a | a in idx :: idx[a] < |nodes|
    ensures Total(Teleport(nodes, idx, anchors)) == 1.0 <==> NoRepeats(Present(anchors, idx, |anchors|))
  {
    hide NoRepeats, Total, Placed, Elements, Parts;
    var present := Present(anchors, idx, |anchors|);
    PresentInRange(nodes, idx, anchors, |anchors|);
    if present == [] {
      assert NoRepeats(present) by { NoRepeatsInNothing(present); }
      UniformMass(|nodes|, 1.0 / |nodes| as real);
      WholeParts(|nodes|, |nodes|);
      assert seq(|nodes|, i => 1.0 / |nodes| as real) == Teleport(nodes, idx, anchors);
    } else {
      var m := |present|;
      PlacedMass(|nodes|, present, 1.0 / m as real, m);
      ElementCount(present, m);
      assert present[..m] == present;
      WholeParts(|Elements(present)|, m);
    }
  }

  lemma PartsAtMost(m: nat, n: nat)
    requires m <= n && n > 0
    ensures Parts(m, 1.0 / n as real) <= 1.0
  {
  }

  /** Anchors listed twice lose teleport mass; nothing adds any. */
  lemma TeleportAtMost(nodes: seq<Addr>, idx: map<Addr, nat>, anchors: seq<Addr>)
    requires |nodes| > 0 && forall a | a in idx :: idx[a] < |nodes|
    ensures Total(Teleport(nodes, idx, anchors)) <= 1.0
  {
    hide NoRepeats, Total, Placed, Elements, Parts;
    var present := Present(anchors, idx, |anchors|);
    PresentInRange(nodes, idx, anchors, |anchors|);
    if present == [] {
      UniformMass(|nodes|, 1.0 / |nodes| as real);
      PartsAtMost(|nodes|, |nodes|);
      assert seq(|nodes|, i => 1.0 / |nodes| as real) == Teleport(nodes, idx, anchors);
    } else {
      var m := |present|;
      PlacedMass(|nodes|, present, 1.0 / m as real, m);
      ElementCount(present, m);
      PartsAtMost(|Elements(present[..m])|, m);
    }
  }

  lemma {:induction false} PresentPlaces(idx: map<Addr, nat>, anchors: seq<Addr>, k: nat, i: nat)
    requires k <= |anchors|
    ensures i in Present(anchors, idx, k) <==> exists j | 0 <= j < k :: anchors[j] in idx && idx[anchors[j]] == i
  {
    if k > 0 { PresentPlaces(idx, anchors, k - 1, i); }
  }

  /** Distinct anchors stay distinct, so teleport keeps its whole mass. */
  lemma {:induction false} DistinctAnchors(nodes: seq<Addr>, idx: map<Addr, nat>, anchors: seq<Addr>, k: nat)
    requires k <= |anchors| && NoRepeats(anchors)
    requires forall a | a in idx :: idx[a] < |nodes| && nodes[idx[a]] == a
    ensures NoRepeats(Present(anchors, idx, k))
  {
    if k > 0 {
      DistinctAnchors(nodes, idx, anchors, k - 1);
      if anchors[k - 1] in idx {
        PresentPlaces(idx, anchors, k - 1, idx[anchors[k - 1]]);
        forall j | 0 <= j < k - 1 && anchors[j] in idx
          ensures idx[anchors[j]] != idx[anchors[k - 1]]
        {
          assert anchors[j] != anchors[k - 1];
        }
      }
    }
  }
}
