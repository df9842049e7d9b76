/** What reputation scores mean, address by address: who can score above zero, and that the order in
    which the nodes are listed does not matter. */
module Scores {
  import opened Types
  import opened Vectors
  import opened PageRank
  import opened Decay
  import opened Reputation

  // ---- Who scores above zero ----------------------------------------------

  predicate HasEdge(edges: seq<TrustEdge>, a: Addr, b: Addr) {
    exists j | 0 <= j < |edges| :: edges[j].from == a && edges[j].to == b
  }

  /** A chain of addresses, each of which has committed coin toward the next. */
  predicate Walk(edges: seq<TrustEdge>, path: seq<Addr>) {
    |path| > 0 && forall i | 0 <= i < |path| - 1 :: HasEdge(edges, path[i], path[i + 1])
  }

  predicate WalkFromAnchor(edges: seq<TrustEdge>, anchors: seq<Addr>, path: seq<Addr>, a: Addr) {
    Walk(edges, path) && path[0] in anchors && path[|path| - 1] == a
  }

  /** Some anchor reaches `a` along at most `k` edges. */
  ghost predicate Rooted(edges: seq<TrustEdge>, anchors: seq<Addr>, a: Addr, k: nat) {
    exists path :: WalkFromAnchor(edges, anchors, path, a) && |path| <= k + 1
  }

  predicate SomeAnchor(anchors: seq<Addr>) {
    exists a | a in anchors :: a != ""
  }

  lemma TeleportsToAnchors(edges: seq<TrustEdge>, anchors: seq<Addr>, nodes: seq<Addr>, idx: map<Addr, nat>, a: Addr)
    requires Weighted(edges) && Listing(nodes, idx, edges, anchors) && SomeAnchor(anchors) && a in idx
    ensures |nodes| > 0 && (Teleport(nodes, idx, anchors)[idx[a]] > 0.0 <==> a in anchors)
  {
    hide Teleport, Weighted;
    TeleportEntries(nodes, idx, anchors);
    PresentPlaces(idx, anchors, |anchors|, idx[a]);
    var b :| b in anchors && b != "";
    PresentPlaces(idx, anchors, |anchors|, idx[b]);
  }

  lemma AnchorRooted(edges: seq<TrustEdge>, anchors: seq<Addr>, a: Addr, k: nat)
    requires a in anchors
    ensures Rooted(edges, anchors, a, k)
  {
    assert WalkFromAnchor(edges, anchors, [a], a);
  }

  lemma OneMoreEdge(edges: seq<TrustEdge>, anchors: seq<Addr>, from: Addr, a: Addr, k: nat)
    requires Rooted(edges, anchors, from, k) && HasEdge(edges, from, a)
    ensures Rooted(edges, anchors, a, k + 1)
  {
    var path :| WalkFromAnchor(edges, anchors, path, from) && |path| <= k + 1;
    assert WalkFromAnchor(edges, anchors, path + [a], a);
  }

  lemma {:induction false} ReachedIsRooted(edges: seq<TrustEdge>, anchors: seq<Addr>, nodes: seq<Addr>, idx: map<Addr, nat>, k: nat, a: Addr)
    requires Weighted(edges) && Listing(nodes, idx, edges, anchors) && SomeAnchor(anchors) && a in idx
    requires WellFormed(Graph(edges, anchors, nodes, idx))
    requires Reached(Graph(edges, anchors, nodes, idx), k, idx[a])
    ensures Rooted(edges, anchors, a, k)
    decreases k
  {
    hide Teleport, Weighted, WellFormed, Share, Rooted;
    var g := Graph(edges, anchors, nodes, idx);
    TeleportsToAnchors(edges, anchors, nodes, idx, a);
    if g.p[idx[a]] > 0.0 {
      AnchorRooted(edges, anchors, a, k);
    } else {
      var j :| 0 <= j < |g.flows| && g.flows[j].to == idx[a] && Reached(g, k - 1, g.flows[j].from);
      var from := edges[j].from;
      assert nodes[idx[edges[j].to]] == edges[j].to == a;
      ReachedIsRooted(edges, anchors, nodes, idx, k - 1, from);
      OneMoreEdge(edges, anchors, from, a, k - 1);
    }
  }

  lemma {:induction false} WalkReaches(edges: seq<TrustEdge>, anchors: seq<Addr>, nodes: seq<Addr>, idx: map<Addr, nat>, k: nat, path: seq<Addr>, a: Addr)
    requires Weighted(edges) && Listing(nodes, idx, edges, anchors) && SomeAnchor(anchors) && a in idx
    requires WellFormed(Graph(edges, anchors, nodes, idx))
    requires WalkFromAnchor(edges, anchors, path, a) && |path| <= k + 1
    ensures Reached(Graph(edges, anchors, nodes, idx), k, idx[a])
    decreases k
  {
    hide Teleport, Weighted, WellFormed, Share;
    var g := Graph(edges, anchors, nodes, idx);
    TeleportsToAnchors(edges, anchors, nodes, idx, a);
    if |path| > 1 {
      var from := path[|path| - 2];
      assert HasEdge(edges, from, path[|path| - 2 + 1]);
      var j :| 0 <= j < |edges| && edges[j].from == from && edges[j].to == a;
      assert edges[j] in edges;
      WalkReaches(edges, anchors, nodes, idx, k - 1, path[..|path| - 1], from);
      assert g.flows[j].to == idx[a] && g.flows[j].from == idx[from];
    }
  }

  /** After any number of rounds, an address scores above zero exactly when an anchor reaches it along
      at most that many edges. */
  lemma ScoreIffRooted(edges: seq<TrustEdge>, anchors: seq<Addr>, nodes: seq<Addr>, idx: map<Addr, nat>, k: nat, a: Addr)
    requires Weighted(edges) && Listing(nodes, idx, edges, anchors) && SomeAnchor(anchors) && a in idx
    requires WellFormed(Graph(edges, anchors, nodes, idx))
    ensures Iterate(Graph(edges, anchors, nodes, idx), k)[idx[a]] >= 0.0
    ensures Iterate(Graph(edges, anchors, nodes, idx), k)[idx[a]] > 0.0 <==> Rooted(edges, anchors, a, k)
  {
    hide Teleport, WellFormed, Reached, Iterate, Weighted, WalkFromAnchor;
    var g := Graph(edges, anchors, nodes, idx);
    PositiveIffReached(g, k, idx[a]);
    if Reached(g, k, idx[a]) {
      ReachedIsRooted(edges, anchors, nodes, idx, k, a);
    }
    if Rooted(edges, anchors, a, k) {
      var path :| WalkFromAnchor(edges, anchors, path, a) && |path| <= k + 1;
      WalkReaches(edges, anchors, nodes, idx, k, path, a);
    }
  }

  // ---- The scores ---------------------------------------------------------

  /** The iteration stops after round `k`: the first whose change is below the tolerance, or the last allowed. */
  predicate Stops(g: Network, k: nat)
    requires WellFormed(g)
  {
    && 0 < k <= MAX_ITERATIONS
    && (k < MAX_ITERATIONS ==> Delta(g, k - 1) < TOLERANCE)
    && (forall j | 0 <= j < k - 1 :: Delta(g, j) >= TOLERANCE)
  }

  lemma StopsOnce(g: Network, j: nat, k: nat)
    requires WellFormed(g) && Stops(g, j) && Stops(g, k)
    ensures j == k
  {
  }

  /** `scores` is what iterating over the listing `nodes` for `k` rounds yields. */
  ghost predicate ScoredBy(edges: seq<TrustEdge>, anchors: seq<Addr>, scores: map<Addr, real>,
                           nodes: seq<Addr>, idx: map<Addr, nat>, k: nat)
    requires Weighted(edges)
  {
    && Listing(nodes, idx, edges, anchors) && |nodes| > 0
    && WellFormed(Graph(edges, anchors, nodes, idx))
    && Stops(Graph(edges, anchors, nodes, idx), k)
    && scores.Keys == idx.Keys
    && forall a | a in idx :: scores[a] == Iterate(Graph(edges, anchors, nodes, idx), k)[idx[a]]
  }

  ghost predicate IsScores(edges: seq<TrustEdge>, anchors: seq<Addr>, scores: map<Addr, real>)
    requires Weighted(edges)
  {
    if Nodes(edges, anchors) == {} then scores == map[]
    else exists nodes, idx, k :: ScoredBy(edges, anchors, scores, nodes, idx, k)
  }

  /** `scores` are the ranks after `k` rounds, from 1 to 100, that start from the teleport vector; and `k` is the
      first round that changed the ranks by less than a billionth in all, or the hundredth. */
  ghost predicate StoppedAt(edges: seq<TrustEdge>, anchors: seq<Addr>, scores: map<Addr, real>,
                            nodes: seq<Addr>, idx: map<Addr, nat>, k: nat)
    requires Weighted(edges)
  {
    && Listing(nodes, idx, edges, anchors) && |nodes| > 0 && WellFormed(Graph(edges, anchors, nodes, idx))
    && var g := Graph(edges, anchors, nodes, idx);
    && Iterate(g, 0) == Teleport(nodes, idx, anchors) && 1 <= k <= 100
    && (k < 100 ==> Distance(Iterate(g, k), Iterate(g, k - 1)) < 0.000000001)
    && (forall j: nat | j < k - 1 :: Distance(Iterate(g, j + 1), Iterate(g, j)) >= 0.000000001)
    && scores.Keys == idx.Keys && forall a | a in idx :: scores[a] == Iterate(g, k)[idx[a]]
  }

  lemma StopsMeans(g: Network, k: nat)
    requires WellFormed(g) && Stops(g, k)
    ensures 1 <= k <= 100 && Iterate(g, 0) == g.p
    ensures k < 100 ==> Distance(Iterate(g, k), Iterate(g, k - 1)) < 0.000000001
    ensures forall j: nat | j < k - 1 :: Distance(Iterate(g, j + 1), Iterate(g, j)) >= 0.000000001
  {
    hide WellFormed, Distance, NextAt;
    assert k < 100 ==> Delta(g, k - 1) < TOLERANCE;
    forall j: nat | j < k - 1
      ensures Distance(Iterate(g, j + 1), Iterate(g, j)) >= 0.000000001
    {
      assert Delta(g, j) >= TOLERANCE;
    }
  }

  /** Every non-empty score map is such a result. */
  lemma StopRule(edges: seq<TrustEdge>, anchors: seq<Addr>, scores: map<Addr, real>)
    requires Weighted(edges) && IsScores(edges, anchors, scores) && scores != map[]
    ensures exists nodes, idx, k :: StoppedAt(edges, anchors, scores, nodes, idx, k)
  {
    hide WellFormed, Iterate, Stops, Listing, Distance, Teleport, Flows, Sinks, Weighted;
    var nodes, idx, k :| ScoredBy(edges, anchors, scores, nodes, idx, k);
    StopsMeans(Graph(edges, anchors, nodes, idx), k);
    assert StoppedAt(edges, anchors, scores, nodes, idx, k);
  }

  /** With at least one named anchor, an address that no anchor reaches along positive-weight edges
      scores exactly zero, and every anchor scores above zero. */
  lemma UnreachedScoresZero(edges: seq<TrustEdge>, anchors: seq<Addr>, scores: map<Addr, real>, a: Addr)
    requires Weighted(edges) && IsScores(edges, anchors, scores) && SomeAnchor(anchors) && a in scores
    ensures (forall path :: !WalkFromAnchor(edges, anchors, path, a)) ==> scores[a] == 0.0
    ensures a in anchors ==> scores[a] > 0.0
  {
    hide WellFormed, Iterate, Stops, Graph, Listing;
    var nodes, idx, k :| ScoredBy(edges, anchors, scores, nodes, idx, k);
    ScoreIffRooted(edges, anchors, nodes, idx, k, a);
    if a in anchors { AnchorRooted(edges, anchors, a, k); }
  }

  /** No edge enters `ring` from outside it. */
  predicate NoWayIn(edges: seq<TrustEdge>, ring: set<Addr>) {
    forall j | 0 <= j < |edges| && edges[j].to in ring :: edges[j].from in ring
  }

  lemma {:induction false} WalkStaysOut(edges: seq<TrustEdge>, ring: set<Addr>, path: seq<Addr>)
    requires NoWayIn(edges, ring) && Walk(edges, path) && path[|path| - 1] in ring
    ensures path[0] in ring
    decreases |path|
  {
    if |path| > 1 {
      var m := |path| - 1;
      assert HasEdge(edges, path[m - 1], path[m - 1 + 1]);
      WalkStaysOut(edges, ring, path[..m]);
    }
  }

  /** A closed ring cannot mint reputation: members of a set with no anchor in it and no edge into it
      score exactly zero, whatever they vouch or pay among themselves. */
  lemma RingScoresZero(edges: seq<TrustEdge>, anchors: seq<Addr>, scores: map<Addr, real>, ring: set<Addr>)
    requires Weighted(edges) && IsScores(edges, anchors, scores) && SomeAnchor(anchors)
    requires NoWayIn(edges, ring) && forall a | a in anchors :: a !in ring
    ensures forall a | a in ring && a in scores :: scores[a] == 0.0
  {
    hide IsScores;
    forall a | a in ring && a in scores
      ensures scores[a] == 0.0
    {
      forall path
        ensures !WalkFromAnchor(edges, anchors, path, a)
      {
        if WalkFromAnchor(edges, anchors, path, a) { WalkStaysOut(edges, ring, path); }
      }
      UnreachedScoresZero(edges, anchors, scores, a);
    }
  }

  // ---- Order does not matter ----------------------------------------------

  function ValuesOf(nodes: seq<Addr>, f: map<Addr, real>): (v: seq<real>)
    requires forall i | 0 <= i < |nodes| :: nodes[i] in f
    ensures |v| == |nodes|
  {
    seq(|nodes|, i requires 0 <= i < |nodes| => f[nodes[i]])
  }

  lemma {:induction false} TotalWithout(v: seq<real>, t: nat)
    requires t < |v|
    ensures Total(v) == Total(v[..t] + v[t + 1..]) + v[t]
    decreases |v|
  {
    var n := |v| - 1;
    if t == n {
      assert v[..t] + v[t + 1..] == v[..n];
    } else {
      TotalWithout(v[..n], t);
      var w := v[..t] + v[t + 1..];
      assert w[..|w| - 1] == v[..n][..t] + v[..n][t + 1..];
    }
  }

  ghost predicate SameElements(xs: seq<Addr>, ys: seq<Addr>) {
    forall a :: a in xs <==> a in ys
  }

  lemma WithoutOne(xs: seq<Addr>, ys: seq<Addr>) returns (t: nat)
    requires |xs| > 0 && NoRepeats(xs) && NoRepeats(ys) && SameElements(xs, ys)
    ensures t < |ys| && ys[t] == xs[|xs| - 1]
    ensures NoRepeats(xs[..|xs| - 1]) && NoRepeats(ys[..t] + ys[t + 1..])
    ensures SameElements(xs[..|xs| - 1], ys[..t] + ys[t + 1..])
  {
    var last := xs[|xs| - 1];
    assert last in ys;
    t :| t < |ys| && ys[t] == last;
    var before, rest := xs[..|xs| - 1], ys[..t] + ys[t + 1..];
    assert xs == before + [last] && ys == ys[..t] + [last] + ys[t + 1..];
    assert forall a :: a in xs <==> a in before || a == last;
    assert forall a :: a in ys <==> a in rest || a == last;
    assert last !in before && last !in rest;
  }

  lemma NothingListed(xs: seq<Addr>, ys: seq<Addr>)
    requires SameElements(xs, ys)
    ensures xs == [] ==> ys == []
  {
    if ys != [] { assert ys[0] in ys; }
  }

  /** Two listings of the same set have the same total. */
  lemma {:induction false} SameTotal(xs: seq<Addr>, ys: seq<Addr>, f: map<Addr, real>)
    requires NoRepeats(xs) && NoRepeats(ys) && SameElements(xs, ys)
    requires forall i | 0 <= i < |xs| :: xs[i] in f
    requires forall i | 0 <= i < |ys| :: ys[i] in f
    ensures Total(ValuesOf(xs, f)) == Total(ValuesOf(ys, f)) && |xs| == |ys|
    decreases |xs|
  {
    hide NoRepeats, SameElements;
    if xs == [] {
      NothingListed(xs, ys);
    } else {
      var n := |xs| - 1;
      var t := WithoutOne(xs, ys);
      var rest := ys[..t] + ys[t + 1..];
      SameTotal(xs[..n], rest, f);
      TotalWithout(ValuesOf(ys, f), t);
      assert ValuesOf(rest, f) == ValuesOf(ys, f)[..t] + ValuesOf(ys, f)[t + 1..];
      assert ValuesOf(xs, f)[..n] == ValuesOf(xs[..n], f);
    }
  }

  lemma ListingLists(nodes: seq<Addr>, idx: map<Addr, nat>, edges: seq<TrustEdge>, anchors: seq<Addr>)
    requires Listing(nodes, idx, edges, anchors)
    ensures NoRepeats(nodes)
    ensures forall a :: a in nodes <==> a in Nodes(edges, anchors)
    ensures forall a :: a in nodes <==> a in idx
  {
  }

  /** A quantity attached to addresses has the same total over any two listings. */
  lemma TotalsAgree(edges: seq<TrustEdge>, anchors: seq<Addr>, xs: seq<Addr>, ix: map<Addr, nat>, x: seq<real>,
                    ys: seq<Addr>, iy: map<Addr, nat>, y: seq<real>)
    requires Listing(xs, ix, edges, anchors) && Listing(ys, iy, edges, anchors)
    requires |x| == |xs| && |y| == |ys|
    requires forall a | a in ix :: x[ix[a]] == y[iy[a]]
    ensures Total(x) == Total(y) && |xs| == |ys|
  {
    hide NoRepeats, Total, Nodes;
    ListingLists(xs, ix, edges, anchors);
    ListingLists(ys, iy, edges, anchors);
    assert SameElements(xs, ys);
    var f := map a | a in ix :: x[ix[a]];
    SameTotal(xs, ys, f);
    assert ValuesOf(xs, f) == x;
    assert ValuesOf(ys, f) == y;
  }

  lemma {:induction false} PresentAgree(anchors: seq<Addr>, ix: map<Addr, nat>, iy: map<Addr, nat>, k: nat)
    requires k <= |anchors| && ix.Keys == iy.Keys
    ensures |Present(anchors, ix, k)| == |Present(anchors, iy, k)|
  {
    if k > 0 {
      PresentAgree(anchors, ix, iy, k - 1);
      assert anchors[k - 1] in ix <==> anchors[k - 1] in iy;
    }
  }

  lemma TeleportValue(nodes: seq<Addr>, idx: map<Addr, nat>, edges: seq<TrustEdge>, anchors: seq<Addr>, a: Addr)
    requires Listing(nodes, idx, edges, anchors) && |nodes| > 0 && a in idx
    ensures var m := |Present(anchors, idx, |anchors|)|;
            Teleport(nodes, idx, anchors)[idx[a]]
            == if m == 0 then 1.0 / |nodes| as real else if a in anchors then 1.0 / m as real else 0.0
  {
    var present := Present(anchors, idx, |anchors|);
    PresentInRange(nodes, idx, anchors, |anchors|);
    if present != [] {
      PlacedEntries(|nodes|, present, 1.0 / |present| as real, |present|);
      assert present[..|present|] == present;
      PresentPlaces(idx, anchors, |anchors|, idx[a]);
      assert idx[a] in present <==> a in anchors by {
        if idx[a] in present {
          var j :| 0 <= j < |anchors| && anchors[j] in idx && idx[anchors[j]] == idx[a];
          assert nodes[idx[anchors[j]]] == anchors[j] && nodes[idx[a]] == a;
        }
      }
    }
  }

  /** Two listings, with vectors that give each address the same value. */
  predicate Alike(ix: map<Addr, nat>, x: seq<real>, iy: map<Addr, nat>, y: seq<real>) {
    && ix.Keys == iy.Keys
    && (forall a | a in ix :: ix[a] < |x| && iy[a] < |y| && x[ix[a]] == y[iy[a]])
  }

  lemma TeleportsAlike(edges: seq<TrustEdge>, anchors: seq<Addr>, xs: seq<Addr>, ix: map<Addr, nat>, ys: seq<Addr>, iy: map<Addr, nat>)
    requires Listing(xs, ix, edges, anchors) && Listing(ys, iy, edges, anchors) && |xs| > 0 && |ys| > 0
    ensures Alike(ix, Teleport(xs, ix, anchors), iy, Teleport(ys, iy, anchors))
  {
    hide Teleport;
    PresentAgree(anchors, ix, iy, |anchors|);
    ghost var zx, zy := seq(|xs|, i => 0.0), seq(|ys|, i => 0.0);
    TotalsAgree(edges, anchors, xs, ix, zx, ys, iy, zy);
    forall a | a in ix
      ensures Teleport(xs, ix, anchors)[ix[a]] == Teleport(ys, iy, anchors)[iy[a]]
    {
      TeleportValue(xs, ix, edges, anchors, a);
      TeleportValue(ys, iy, edges, anchors, a);
    }
  }

  lemma {:induction false} InflowsAgree(edges: seq<TrustEdge>, ix: map<Addr, nat>, x: seq<real>, iy: map<Addr, nat>, y: seq<real>, a: Addr, k: nat)
    requires Weighted(edges) && Covers(ix, edges) && Covers(iy, edges) && a in ix && k <= |edges| && Alike(ix, x, iy, y)
    requires InRange(Flows(edges, ix, |edges|), |x|) && InRange(Flows(edges, iy, |edges|), |y|)
    requires forall j | 0 <= j < |edges| :: (ix[edges[j].to] == ix[a] <==> edges[j].to == a) && (iy[edges[j].to] == iy[a] <==> edges[j].to == a)
    ensures Inflow(Flows(edges, ix, |edges|), x, ix[a], k) == Inflow(Flows(edges, iy, |edges|), y, iy[a], k)
  {
    hide Share;
    if k > 0 {
      InflowsAgree(edges, ix, x, iy, y, a, k - 1);
      var e := edges[k - 1];
      assert e in edges;
      assert Flows(edges, ix, |edges|)[k - 1] == Flow(ix[e.from], ix[e.to], Share(edges, e));
      assert Flows(edges, iy, |edges|)[k - 1] == Flow(iy[e.from], iy[e.to], Share(edges, e));
    }
  }

  lemma DanglingAgrees(edges: seq<TrustEdge>, anchors: seq<Addr>, xs: seq<Addr>, ix: map<Addr, nat>, x: seq<real>,
                       ys: seq<Addr>, iy: map<Addr, nat>, y: seq<real>)
    requires Listing(xs, ix, edges, anchors) && Listing(ys, iy, edges, anchors)
    requires |x| == |xs| && |y| == |ys| && Alike(ix, x, iy, y)
    ensures Dangling(Sinks(edges, xs), x, |x|) == Dangling(Sinks(edges, ys), y, |y|)
  {
    hide Weight, Total;
    var hx, hy := Held(Sinks(edges, xs), x), Held(Sinks(edges, ys), y);
    DanglingIsHeld(Sinks(edges, xs), x, |x|);
    DanglingIsHeld(Sinks(edges, ys), y, |y|);
    assert hx[..|x|] == hx && hy[..|y|] == hy;
    forall a | a in ix
      ensures hx[ix[a]] == hy[iy[a]]
    {
      assert xs[ix[a]] == a && ys[iy[a]] == a;
    }
    TotalsAgree(edges, anchors, xs, ix, hx, ys, iy, hy);
  }

  lemma NextAgrees(edges: seq<TrustEdge>, anchors: seq<Addr>, xs: seq<Addr>, ix: map<Addr, nat>, x: seq<real>,
                   ys: seq<Addr>, iy: map<Addr, nat>, y: seq<real>, a: Addr)
    requires Weighted(edges) && Listing(xs, ix, edges, anchors) && Listing(ys, iy, edges, anchors) && |xs| > 0 && |ys| > 0
    requires WellFormed(Graph(edges, anchors, xs, ix)) && WellFormed(Graph(edges, anchors, ys, iy))
    requires |x| == |xs| && |y| == |ys| && Alike(ix, x, iy, y) && a in ix
    requires Dangling(Sinks(edges, xs), x, |x|) == Dangling(Sinks(edges, ys), y, |y|)
    ensures NextAt(Graph(edges, anchors, xs, ix), x, ix[a]) == NextAt(Graph(edges, anchors, ys, iy), y, iy[a])
  {
    hide Teleport, Share, Dangling, Inflow, Flows, Leaving, Base;
    TeleportsAlike(edges, anchors, xs, ix, ys, iy);
    forall j | 0 <= j < |edges|
      ensures (ix[edges[j].to] == ix[a] <==> edges[j].to == a) && (iy[edges[j].to] == iy[a] <==> edges[j].to == a)
    {
      assert edges[j] in edges;
      assert xs[ix[edges[j].to]] == edges[j].to && ys[iy[edges[j].to]] == edges[j].to && xs[ix[a]] == a && ys[iy[a]] == a;
    }
    InflowsAgree(edges, ix, x, iy, y, a, |edges|);
  }

  /** Every iterate gives each address the same rank, whichever way the nodes are listed. */
  lemma {:induction false} IteratesAlike(edges: seq<TrustEdge>, anchors: seq<Addr>, xs: seq<Addr>, ix: map<Addr, nat>,
                                         ys: seq<Addr>, iy: map<Addr, nat>, k: nat)
    requires Weighted(edges) && Listing(xs, ix, edges, anchors) && Listing(ys, iy, edges, anchors) && |xs| > 0 && |ys| > 0
    requires WellFormed(Graph(edges, anchors, xs, ix)) && WellFormed(Graph(edges, anchors, ys, iy))
    ensures Alike(ix, Iterate(Graph(edges, anchors, xs, ix), k), iy, Iterate(Graph(edges, anchors, ys, iy), k))
  {
    hide WellFormed, Teleport, Weight, Dangling, NextAt, Flows;
    var g, h := Graph(edges, anchors, xs, ix), Graph(edges, anchors, ys, iy);
    TeleportsAlike(edges, anchors, xs, ix, ys, iy);
    if k > 0 {
      IteratesAlike(edges, anchors, xs, ix, ys, iy, k - 1);
      var x, y := Iterate(g, k - 1), Iterate(h, k - 1);
      DanglingAgrees(edges, anchors, xs, ix, x, ys, iy, y);
      forall a | a in ix
        ensures Iterate(g, k)[ix[a]] == Iterate(h, k)[iy[a]]
      {
        NextAgrees(edges, anchors, xs, ix, x, ys, iy, y, a);
      }
    }
  }

  lemma DeltasAgree(edges: seq<TrustEdge>, anchors: seq<Addr>, xs: seq<Addr>, ix: map<Addr, nat>,
                    ys: seq<Addr>, iy: map<Addr, nat>, k: nat)
    requires Weighted(edges) && Listing(xs, ix, edges, anchors) && Listing(ys, iy, edges, anchors) && |xs| > 0 && |ys| > 0
    requires WellFormed(Graph(edges, anchors, xs, ix)) && WellFormed(Graph(edges, anchors, ys, iy))
    ensures Delta(Graph(edges, anchors, xs, ix), k) == Delta(Graph(edges, anchors, ys, iy), k)
  {
    hide WellFormed, Teleport, Iterate, Total;
    var g, h := Graph(edges, anchors, xs, ix), Graph(edges, anchors, ys, iy);
    IteratesAlike(edges, anchors, xs, ix, ys, iy, k);
    IteratesAlike(edges, anchors, xs, ix, ys, iy, k + 1);
    TotalsAgree(edges, anchors, xs, ix, Gaps(Iterate(g, k + 1), Iterate(g, k)), ys, iy, Gaps(Iterate(h, k + 1), Iterate(h, k)));
  }

  /** The scores are a function of the edges and the anchors: listing the nodes in another order
      changes neither the number of rounds nor any score. */
  lemma ScoresUnique(edges: seq<TrustEdge>, anchors: seq<Addr>, s: map<Addr, real>, t: map<Addr, real>)
    requires Weighted(edges) && IsScores(edges, anchors, s) && IsScores(edges, anchors, t)
    ensures s == t
  {
    hide WellFormed, Iterate, Graph, Listing, Delta, Weighted;
    if Nodes(edges, anchors) != {} {
      var xs, ix, j :| ScoredBy(edges, anchors, s, xs, ix, j);
      var ys, iy, k :| ScoredBy(edges, anchors, t, ys, iy, k);
      var g, h := Graph(edges, anchors, xs, ix), Graph(edges, anchors, ys, iy);
      forall n: nat
        ensures Delta(g, n) == Delta(h, n)
      {
        DeltasAgree(edges, anchors, xs, ix, ys, iy, n);
      }
      assert Stops(g, k);
      StopsOnce(g, j, k);
      IteratesAlike(edges, anchors, xs, ix, ys, iy, k);
    }
  }

  /** With distinct anchors the scores are a distribution: none is negative and, summed over the nodes
      in any order, they make exactly 1. */
  lemma ScoresSumToOne(edges: seq<TrustEdge>, anchors: seq<Addr>, scores: map<Addr, real>, order: seq<Addr>)
    requires Weighted(edges) && IsScores(edges, anchors, scores) && scores != map[] && NoRepeats(anchors)
    requires NoRepeats(order) && forall a :: a in order <==> a in scores
    ensures forall a | a in scores :: scores[a] >= 0.0
    ensures Total(ValuesOf(order, scores)) == 1.0
  {
    hide WellFormed, Iterate, Stops, NoRepeats, Weighted, Nodes, Teleport, Total;
    var nodes, idx, k :| ScoredBy(edges, anchors, scores, nodes, idx, k);
    var g := Graph(edges, anchors, nodes, idx);
    DistinctAnchors(nodes, idx, anchors, |anchors|);
    TeleportMass(nodes, idx, anchors);
    IterateKeepsMass(g, k);
    ListingLists(nodes, idx, edges, anchors);
    assert SameElements(nodes, order);
    SameTotal(nodes, order, scores);
    assert ValuesOf(nodes, scores) == Iterate(g, k);
  }

  // ---- Distant addresses score little -------------------------------------

  /** The places of `group` among the nodes. */
  function Mask(nodes: seq<Addr>, group: seq<Addr>): (mask: seq<bool>)
    ensures |mask| == |nodes|
  {
    seq(|nodes|, i requires 0 <= i < |nodes| => nodes[i] in group)
  }

  /** What the members of a group score together is the mass of their places. */
  lemma {:induction false} GroupTotal(nodes: seq<Addr>, idx: map<Addr, nat>, x: seq<real>, f: map<Addr, real>, group: seq<Addr>)
    requires |x| == |nodes| && NoRepeats(group)
    requires forall a | a in idx :: idx[a] < |nodes| && nodes[idx[a]] == a && a in f && f[a] == x[idx[a]]
    requires forall i | 0 <= i < |nodes| :: nodes[i] in idx && idx[nodes[i]] == i
    requires forall i | 0 <= i < |group| :: group[i] in idx
    ensures Total(ValuesOf(group, f)) == Mass(Mask(nodes, group), x)
    decreases |group|
  {
    hide Total;
    if group == [] {
      NothingHeld(Mask(nodes, group), x);
      TotalZero(ValuesOf(group, f));
    } else {
      var n := |group| - 1;
      var a := group[n];
      var before := group[..n];
      GroupTotal(nodes, idx, x, f, before);
      assert group == before + [a] && a !in before;
      var h, h' := Held(Mask(nodes, before), x), Held(Mask(nodes, group), x);
      assert h' == h[idx[a] := h[idx[a]] + x[idx[a]]];
      TotalUpdate(h, idx[a], x[idx[a]]);
      LastValue(group, f);
    }
  }

  lemma LastValue(group: seq<Addr>, f: map<Addr, real>)
    requires |group| > 0 && forall i | 0 <= i < |group| :: group[i] in f
    ensures Total(ValuesOf(group, f)) == Total(ValuesOf(group[..|group| - 1], f)) + f[group[|group| - 1]]
  {
    var n := |group| - 1;
    assert ValuesOf(group, f)[..n] == ValuesOf(group[..n], f);
  }

  /** Every walk from an anchor to `a` takes at least `k` edges. */
  ghost predicate Distant(edges: seq<TrustEdge>, anchors: seq<Addr>, a: Addr, k: nat) {
    forall path | WalkFromAnchor(edges, anchors, path, a) :: |path| > k
  }

  lemma DistantIsFar(edges: seq<TrustEdge>, anchors: seq<Addr>, nodes: seq<Addr>, idx: map<Addr, nat>, a: Addr, k: nat)
    requires Weighted(edges) && Listing(nodes, idx, edges, anchors) && SomeAnchor(anchors) && a in idx
    requires WellFormed(Graph(edges, anchors, nodes, idx)) && Distant(edges, anchors, a, k)
    ensures Far(Graph(edges, anchors, nodes, idx), k)[idx[a]]
  {
    hide WellFormed, Reached, Weighted, WalkFromAnchor, Teleport, Share;
    var g := Graph(edges, anchors, nodes, idx);
    if k > 0 && Reached(g, k - 1, idx[a]) {
      ReachedIsRooted(edges, anchors, nodes, idx, k - 1, a);
      assert false;
    }
  }

  /** Reputation decays per hop, and splitting up does not help: however many addresses there are that no
      anchor reaches along fewer than `k` edges, they score together at most `0.85^k`. */
  lemma DistantScoreLittle(edges: seq<TrustEdge>, anchors: seq<Addr>, scores: map<Addr, real>, group: seq<Addr>, k: nat)
    requires Weighted(edges) && IsScores(edges, anchors, scores) && SomeAnchor(anchors)
    requires NoRepeats(group) && forall i | 0 <= i < |group| :: group[i] in scores && Distant(edges, anchors, group[i], k)
    ensures Total(ValuesOf(group, scores)) <= Power(DAMPING, k)
  {
    hide WellFormed, Iterate, Stops, NoRepeats, Weighted, Teleport, Total, Distant;
    var b :| b in anchors && b != "";
    assert b in Nodes(edges, anchors);
    var nodes, idx, n :| ScoredBy(edges, anchors, scores, nodes, idx, n);
    var g := Graph(edges, anchors, nodes, idx);
    TeleportAtMost(nodes, idx, anchors);
    GroupTotal(nodes, idx, Iterate(g, n), scores, group);
    forall v | 0 <= v < |nodes| && Mask(nodes, group)[v]
      ensures Far(g, k)[v]
    {
      var i :| 0 <= i < |group| && group[i] == nodes[v];
      DistantIsFar(edges, anchors, nodes, idx, nodes[v], k);
    }
    IterateAtMost(g, n);
    TotalMonotone(Held(Mask(nodes, group), Iterate(g, n)), Held(Far(g, k), Iterate(g, n)));
    FarMass(g, k, n);
  }
}
