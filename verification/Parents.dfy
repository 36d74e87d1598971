/** How the router picks parents (olympus_link/autorouter.py): the cheapest next hop, but with
    hysteresis in favour of the current one, and a strictly closer secondary. */
module Parents {
  import opened Graph
  import opened Wrappers

  /** `x * (1 - margin)`. */
  function Scaled(x: real, margin: real): real {
    x * (1.0 - margin)
  }

  /** What the choice relies on: finite costs on the edges it adds up. */
  ghost predicate Ready(g: Adj, dist: map<Eui, Dist>, prev: map<Eui, Option<Eui>>, n: Eui) {
    && n in g && n in dist && n in prev
    && (forall c :: Edge(g, n, c) ==> c in dist)
    && (prev[n].Some? ==> Edge(g, n, prev[n].value) && dist[prev[n].value].Fin?)
  }

  /** `_choose_primary`. */
  function ChoosePrimary(g: Adj, dist: map<Eui, Dist>, prev: map<Eui, Option<Eui>>, n: Eui, current: Option<Eui>,
                         margin: real): Option<Eui>
    requires Ready(g, dist, prev, n)
  {
    var candidate := prev[n];
    if candidate.None? && dist[n].Inf? then None
    else if current.Some? && Edge(g, n, current.value) && dist[current.value].Fin? then
      var costCur := dist[current.value].cost + W(g, n, current.value);
      if candidate.None? || dist[candidate.value].cost + W(g, n, candidate.value) >= Scaled(costCur, margin)
      then current
      else candidate
    else candidate
  }

  // ---------------------------------------------------------------- the secondary parent

  /** A neighbour that may serve as secondary: not the primary, and closer to the root. */
  predicate Eligible(dist: map<Eui, Dist>, n: Eui, primary: Option<Eui>, x: Eui)
    requires n in dist && x in dist
  {
    primary != Some(x) && dist[x].Fin? && (dist[n].Inf? || dist[x].cost < dist[n].cost)
  }

  ghost predicate RowReady(g: Adj, dist: map<Eui, Dist>, n: Eui) {
    n in g && n in dist && RowValid(g[n]) && forall c :: Edge(g, n, c) ==> c in dist
  }

  /** The best eligible neighbour among the first `k`, the earliest of equals. */
  function BestOf(g: Adj, dist: map<Eui, Dist>, n: Eui, primary: Option<Eui>, k: nat): (r: Option<Eui>)
    requires RowReady(g, dist, n) && k <= |g[n].keys|
    ensures r.Some? ==> Edge(g, n, r.value) && r.value in dist && Eligible(dist, n, primary, r.value)
  {
    if k == 0 then None
    else
      var best, x := BestOf(g, dist, n, primary, k - 1), g[n].keys[k - 1];
      assert Edge(g, n, x);
      if !Eligible(dist, n, primary, x) then best
      else if best.None? || dist[x].cost + W(g, n, x) < dist[best.value].cost + W(g, n, best.value) then Some(x)
      else best
  }

  function ChooseSecondary(g: Adj, dist: map<Eui, Dist>, n: Eui, primary: Option<Eui>): Option<Eui>
    requires RowReady(g, dist, n)
  {
    BestOf(g, dist, n, primary, |g[n].keys|)
  }

  /** `_choose_secondary`. */
  method PickSecondary(g: Adj, dist: map<Eui, Dist>, n: Eui, primary: Option<Eui>) returns (best: Option<Eui>)
    requires RowReady(g, dist, n)
    ensures best == ChooseSecondary(g, dist, n, primary)
  {
    best := None;
    var bestCost := 0.0;
    var row := g[n];
    for i := 0 to |row.keys|
      invariant best == BestOf(g, dist, n, primary, i)
      invariant best.Some? ==> bestCost == dist[best.value].cost + W(g, n, best.value)
    {
      var nb := row.keys[i];
      assert Edge(g, n, nb);
      if primary == Some(nb) { continue; }
      var nd := dist[nb];
      if nd.Inf? || (dist[n].Fin? && nd.cost >= dist[n].cost) { continue; }
      var c := nd.cost + row.cost[nb];
      if best.None? || c < bestCost {
        best, bestCost := Some(nb), c;
      }
    }
  }

  /** The secondary is a cheapest eligible neighbour, and there is one whenever any is eligible. */
  lemma SecondaryBest(g: Adj, dist: map<Eui, Dist>, n: Eui, primary: Option<Eui>, x: Eui)
    requires RowReady(g, dist, n) && Edge(g, n, x) && Eligible(dist, n, primary, x)
    ensures var s := ChooseSecondary(g, dist, n, primary);
            s.Some? && dist[s.value].cost + W(g, n, s.value) <= dist[x].cost + W(g, n, x)
  {
    var k :| 0 <= k < |g[n].keys| && g[n].keys[k] == x;
    BestBeats(g, dist, n, primary, |g[n].keys|, k);
  }

  lemma {:induction false} BestBeats(g: Adj, dist: map<Eui, Dist>, n: Eui, primary: Option<Eui>, m: nat, k: nat)
    requires RowReady(g, dist, n) && k < m <= |g[n].keys| && Eligible(dist, n, primary, g[n].keys[k])
    ensures var s, x := BestOf(g, dist, n, primary, m), g[n].keys[k];
            s.Some? && dist[s.value].cost + W(g, n, s.value) <= dist[x].cost + W(g, n, x)
  {
    if k < m - 1 {
      BestBeats(g, dist, n, primary, m - 1, k);
    }
  }

  // ---------------------------------------------------------------- distances

  lemma {:induction false} WalkCostNonneg(g: Adj, p: seq<Eui>)
    requires Valid(g) && forall k :: 0 <= k < |p| - 1 ==> Edge(g, p[k], p[k + 1])
    ensures WalkCost(g, p) >= 0.0
    decreases |p|
  {
    if |p| > 1 {
      WalkCostNonneg(g, p[..|p| - 1]);
      assert Edge(g, p[|p| - 2], p[|p| - 1]);
    }
  }

  lemma Relaxes(g: Adj, root: Eui, dist: map<Eui, Dist>, prev: map<Eui, Option<Eui>>, u: Eui, v: Eui)
    requires Valid(g) && ShortestTree(g, root, dist, prev) && Edge(g, u, v) && dist[u].Fin?
    ensures v in dist && dist[v].Fin? && dist[v].cost <= dist[u].cost + W(g, u, v)
  {
    hide WalkCost, Points;
    assert v in g;
    assert IsDistance(g, root, u, dist[u]) && IsDistance(g, root, v, dist[v]);
    var p :| IsWalk(g, p, root, u) && WalkCost(g, p) == dist[u].cost;
    WalkExtends(g, p, root, u, v);
  }

  lemma Nonneg(g: Adj, root: Eui, dist: map<Eui, Dist>, prev: map<Eui, Option<Eui>>, v: Eui)
    requires Valid(g) && ShortestTree(g, root, dist, prev) && v in g && dist[v].Fin?
    ensures dist[v].cost >= 0.0
  {
    assert IsDistance(g, root, v, dist[v]);
    var p :| IsWalk(g, p, root, v) && WalkCost(g, p) == dist[v].cost;
    WalkCostNonneg(g, p);
  }

  lemma RootZero(g: Adj, root: Eui, dist: map<Eui, Dist>, prev: map<Eui, Option<Eui>>)
    requires Valid(g) && ShortestTree(g, root, dist, prev) && root in g
    ensures dist[root] == Fin(0.0)
  {
    assert IsDistance(g, root, root, dist[root]);
    assert IsWalk(g, [root], root, root) && WalkCost(g, [root]) == 0.0;
    Nonneg(g, root, dist, prev, root);
  }

  /** Distances do not depend on how the search broke its ties. */
  lemma DistancesUnique(g: Adj, root: Eui, d1: map<Eui, Dist>, p1: map<Eui, Option<Eui>>, d2: map<Eui, Dist>,
                        p2: map<Eui, Option<Eui>>)
    requires ShortestTree(g, root, d1, p1) && ShortestTree(g, root, d2, p2)
    ensures d1 == d2
  {
    hide IsWalk, WalkCost, Points;
    assert d1.Keys == d2.Keys;
    forall v | v in d1 ensures d1[v] == d2[v] {
      assert IsDistance(g, root, v, d1[v]) && IsDistance(g, root, v, d2[v]);
    }
  }

  /** The tree edge of a reachable node, seen from the node. */
  lemma TreeEdge(g: Adj, root: Eui, dist: map<Eui, Dist>, prev: map<Eui, Option<Eui>>, n: Eui)
    requires Valid(g) && Symmetric(g) && ShortestTree(g, root, dist, prev) && n in g && n != root
    ensures Ready(g, dist, prev, n)
    ensures prev[n].Some? <==> dist[n].Fin?
    ensures dist[n].Fin? ==> dist[n].cost == dist[prev[n].value].cost + W(g, n, prev[n].value) && dist[n].cost > 0.0
  {
    hide IsDistance;
    assert Points(g, root, dist, prev, n);
    if prev[n].Some? {
      Nonneg(g, root, dist, prev, prev[n].value);
    }
  }

  // ---------------------------------------------------------------- what a chosen primary is like

  lemma ScaledShrinks(x: real, margin: real)
    requires x >= 0.0 && 0.0 <= margin
    ensures Scaled(x, margin) <= x
  {
  }

  /** A module has a primary exactly when it can reach the gateway, and the primary is at most the
      hysteresis margin worse than the best next hop, whatever parent it had before. */
  lemma PrimaryFacts(g: Adj, root: Eui, dist: map<Eui, Dist>, prev: map<Eui, Option<Eui>>, n: Eui,
                     current: Option<Eui>, margin: real)
    requires Valid(g) && Symmetric(g) && ShortestTree(g, root, dist, prev) && n in g && n != root && 0.0 <= margin
    ensures Ready(g, dist, prev, n)
    ensures var p := ChoosePrimary(g, dist, prev, n, current, margin);
            && (p.None? <==> dist[n].Inf?)
            && (p.Some? ==> Edge(g, n, p.value) && p.value in dist && dist[p.value].Fin?
                            && Scaled(dist[p.value].cost + W(g, n, p.value), margin) <= dist[n].cost)
  {
    hide Scaled, ShortestTree, Valid, Symmetric;
    TreeEdge(g, root, dist, prev, n);
    if dist[n].Fin? { ScaledShrinks(dist[n].cost, margin); }
  }

  /** Orphans are exactly the modules no walk connects to the gateway. */
  lemma OrphanIff(g: Adj, root: Eui, dist: map<Eui, Dist>, prev: map<Eui, Option<Eui>>, n: Eui, current: Option<Eui>,
                  margin: real)
    requires Valid(g) && Symmetric(g) && ShortestTree(g, root, dist, prev) && n in g && n != root && 0.0 <= margin
    ensures Ready(g, dist, prev, n)
    ensures ChoosePrimary(g, dist, prev, n, current, margin).None? <==> forall p :: !IsWalk(g, p, root, n)
  {
    PrimaryFacts(g, root, dist, prev, n, current, margin);
    assert IsDistance(g, root, n, dist[n]);
    hide IsWalk, WalkCost, Points, ChoosePrimary, Ready;
  }

  /** Choosing again, with the choice just made as current parent, changes nothing, even if the
      search breaks its ties differently the second time. */
  lemma ChoiceIsFixed(g: Adj, root: Eui, d1: map<Eui, Dist>, p1: map<Eui, Option<Eui>>, d2: map<Eui, Dist>,
                      p2: map<Eui, Option<Eui>>, n: Eui, current: Option<Eui>, margin: real)
    requires Valid(g) && Symmetric(g) && ShortestTree(g, root, d1, p1) && ShortestTree(g, root, d2, p2)
    requires n in g && n != root && 0.0 <= margin
    ensures Ready(g, d1, p1, n) && Ready(g, d2, p2, n)
    ensures var first := ChoosePrimary(g, d1, p1, n, current, margin);
            ChoosePrimary(g, d2, p2, n, first, margin) == first
  {
    hide ShortestTree, Valid, Symmetric, Scaled, Ready;
    DistancesUnique(g, root, d1, p1, d2, p2);
    TreeEdge(g, root, d1, p1, n);
    TreeEdge(g, root, d2, p2, n);
    PrimaryFacts(g, root, d1, p1, n, current, margin);
  }

  // ---------------------------------------------------------------- which secondary, in terms of walks

  /** A neighbour that is not the primary and that some walk reaches cheaper than any reaches the module. */
  ghost predicate Alternate(g: Adj, root: Eui, n: Eui, primary: Option<Eui>, x: Eui) {
    && Edge(g, n, x) && primary != Some(x)
    && exists p :: IsWalk(g, p, root, x) && forall q :: IsWalk(g, q, root, n) ==> WalkCost(g, p) < WalkCost(g, q)
  }

  /** The least a way to `n` over its neighbour `x` costs is `c`. */
  ghost predicate WayCosts(g: Adj, root: Eui, n: Eui, x: Eui, c: real) {
    && Edge(g, n, x)
    && (exists p :: IsWalk(g, p, root, x) && WalkCost(g, p) + W(g, n, x) == c)
    && (forall p :: IsWalk(g, p, root, x) ==> c <= WalkCost(g, p) + W(g, n, x))
  }

  /** No way over such a neighbour is shorter than the one over `s`. */
  ghost predicate ShortestWay(g: Adj, root: Eui, n: Eui, primary: Option<Eui>, s: Eui) {
    forall x, c, d | Alternate(g, root, n, primary, x) && WayCosts(g, root, n, s, c) && WayCosts(g, root, n, x, d) ::
      c <= d
  }

  lemma EligibleIff(g: Adj, root: Eui, dist: map<Eui, Dist>, prev: map<Eui, Option<Eui>>, n: Eui,
                    primary: Option<Eui>, x: Eui)
    requires Valid(g) && ShortestTree(g, root, dist, prev) && n in g && Edge(g, n, x)
    ensures n in dist && x in dist
    ensures Eligible(dist, n, primary, x) <==> Alternate(g, root, n, primary, x)
    ensures dist[x].Fin? ==> WayCosts(g, root, n, x, dist[x].cost + W(g, n, x))
  {
    hide WalkCost, Points, W;
    assert IsDistance(g, root, n, dist[n]) && x in g && IsDistance(g, root, x, dist[x]);
    if Eligible(dist, n, primary, x) {
      var p :| IsWalk(g, p, root, x) && WalkCost(g, p) == dist[x].cost;
      assert forall q :: IsWalk(g, q, root, n) ==> WalkCost(g, p) < WalkCost(g, q);
    }
    if Alternate(g, root, n, primary, x) && dist[n].Fin? {
      var p :| IsWalk(g, p, root, x) && forall q :: IsWalk(g, q, root, n) ==> WalkCost(g, p) < WalkCost(g, q);
      var q :| IsWalk(g, q, root, n) && WalkCost(g, q) == dist[n].cost;
    }
  }

  /** There is a secondary exactly when there is such a neighbour, and then it is one, over which no way is
      longer than over any other. */
  lemma SecondaryIff(g: Adj, root: Eui, dist: map<Eui, Dist>, prev: map<Eui, Option<Eui>>, n: Eui, primary: Option<Eui>)
    requires Valid(g) && ShortestTree(g, root, dist, prev) && n in g
    ensures RowReady(g, dist, n)
    ensures var s := ChooseSecondary(g, dist, n, primary);
            && (s.Some? <==> exists x :: Alternate(g, root, n, primary, x))
            && (s.Some? ==> Alternate(g, root, n, primary, s.value))
            && (s.Some? ==> ShortestWay(g, root, n, primary, s.value))
  {
    hide Eligible, Alternate, WayCosts, IsDistance, Points, W;
    var s := ChooseSecondary(g, dist, n, primary);
    if s.Some? {
      assert Edge(g, n, s.value);
      EligibleIff(g, root, dist, prev, n, primary, s.value);
    }
    forall x | Alternate(g, root, n, primary, x)
      ensures s.Some? && x in dist && dist[x].Fin? && dist[s.value].Fin? && Edge(g, n, x)
      ensures dist[s.value].cost + W(g, n, s.value) <= dist[x].cost + W(g, n, x)
      ensures WayCosts(g, root, n, x, dist[x].cost + W(g, n, x))
    {
      AlternateEdge(g, root, n, primary, x);
      EligibleIff(g, root, dist, prev, n, primary, x);
      EligibleFinite(dist, n, primary, x);
      SecondaryBest(g, dist, n, primary, x);
      EligibleFinite(dist, n, primary, s.value);
    }
    if s.Some? {
      EligibleFinite(dist, n, primary, s.value);
      forall x, c, d | && Alternate(g, root, n, primary, x) && WayCosts(g, root, n, s.value, c)
                       && WayCosts(g, root, n, x, d)
        ensures c <= d
      {
        OneWayCost(g, root, n, s.value, c, dist[s.value].cost + W(g, n, s.value));
        OneWayCost(g, root, n, x, d, dist[x].cost + W(g, n, x));
      }
    }
  }

  lemma AlternateEdge(g: Adj, root: Eui, n: Eui, primary: Option<Eui>, x: Eui)
    requires Alternate(g, root, n, primary, x)
    ensures Edge(g, n, x)
  {
  }

  lemma EligibleFinite(dist: map<Eui, Dist>, n: Eui, primary: Option<Eui>, x: Eui)
    requires n in dist && x in dist && Eligible(dist, n, primary, x)
    ensures dist[x].Fin?
  {
  }

  lemma OneWayCost(g: Adj, root: Eui, n: Eui, x: Eui, c: real, d: real)
    requires WayCosts(g, root, n, x, c) && WayCosts(g, root, n, x, d)
    ensures c == d
  {
    hide IsWalk, WalkCost, W;
  }

  // ---------------------------------------------------------------- which primary, in terms of walks

  /** The current parent is a neighbour still in touch, and the shortest way to `n` is not cheaper than the
      way over it by more than the margin. */
  ghost predicate WorthKeeping(g: Adj, root: Eui, n: Eui, current: Option<Eui>, margin: real) {
    && current.Some? && (exists p :: IsWalk(g, p, root, n))
    && exists c :: WayCosts(g, root, n, current.value, c)
                   && forall q :: IsWalk(g, q, root, n) ==> c * (1.0 - margin) <= WalkCost(g, q)
  }

  /** The current parent stays exactly when it is worth keeping; otherwise the primary is a neighbour over
      which the shortest way leads, or there is none because there is no way. */
  lemma PrimaryIff(g: Adj, root: Eui, dist: map<Eui, Dist>, prev: map<Eui, Option<Eui>>, n: Eui, current: Option<Eui>,
                   margin: real)
    requires Valid(g) && Symmetric(g) && ShortestTree(g, root, dist, prev) && n in g && n != root
    ensures Ready(g, dist, prev, n)
    ensures var p := ChoosePrimary(g, dist, prev, n, current, margin);
            if WorthKeeping(g, root, n, current, margin) then p == current
            else if p.None? then forall q :: !IsWalk(g, q, root, n)
            else exists c :: && WayCosts(g, root, n, p.value, c)
                             && forall q :: IsWalk(g, q, root, n) ==> c <= WalkCost(g, q)
  {
    hide WalkCost, Points, W, Graph.Valid, Symmetric, ShortestTree, WayCosts;
    TreeEdge(g, root, dist, prev, n);
    DistanceIs(g, root, dist, prev, n);
    if dist[n].Fin? {
      NeighborWay(g, root, dist, prev, n, prev[n].value);
      if current.Some? && Edge(g, n, current.value) {
        NeighborWay(g, root, dist, prev, n, current.value);
      }
      if WorthKeeping(g, root, n, current, margin) {
        var c :| && WayCosts(g, root, n, current.value, c)
                 && forall q :: IsWalk(g, q, root, n) ==> c * (1.0 - margin) <= WalkCost(g, q);
        WayEdge(g, root, n, current.value, c);
        OneWayCost(g, root, n, current.value, c, dist[current.value].cost + W(g, n, current.value));
        var q :| IsWalk(g, q, root, n) && WalkCost(g, q) == dist[n].cost;
      }
    }
  }

  lemma DistanceIs(g: Adj, root: Eui, dist: map<Eui, Dist>, prev: map<Eui, Option<Eui>>, n: Eui)
    requires ShortestTree(g, root, dist, prev) && n in g
    ensures n in dist && IsDistance(g, root, n, dist[n])
  {
    hide IsDistance, Points;
  }

  lemma WayEdge(g: Adj, root: Eui, n: Eui, x: Eui, c: real)
    requires WayCosts(g, root, n, x, c)
    ensures Edge(g, n, x) && exists p :: IsWalk(g, p, root, x)
  {
    hide WalkCost;
  }

  /** A neighbour is in touch exactly when its distance is finite, and the way over it costs that and the edge. */
  lemma NeighborWay(g: Adj, root: Eui, dist: map<Eui, Dist>, prev: map<Eui, Option<Eui>>, n: Eui, x: Eui)
    requires Valid(g) && ShortestTree(g, root, dist, prev) && n in g && Edge(g, n, x)
    ensures x in dist && (dist[x].Fin? <==> exists p :: IsWalk(g, p, root, x))
    ensures dist[x].Fin? ==> WayCosts(g, root, n, x, dist[x].cost + W(g, n, x))
  {
    hide WalkCost, Points, W;
    assert x in g && IsDistance(g, root, x, dist[x]);
  }
}
