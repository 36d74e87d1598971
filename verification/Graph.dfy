/** Weighted graphs, walks and distances, and the lazy-deletion Dijkstra of
    olympus_link/autorouter.py. */
module Graph {
  import opened Sequences
  import opened Wrappers

  /** A node's EUI-64, as a number. */
  type Eui = int

  /** An insertion-ordered dictionary of costs: `adj[a]`. */
  datatype Row = Row(keys: seq<Eui>, cost: map<Eui, real>)

  type Adj = map<Eui, Row>

  datatype Dist = Inf | Fin(cost: real)

  ghost predicate RowValid(r: Row) {
    && Distinct(r.keys)
    && (forall k :: k in r.cost ==> k in r.keys)
    && (forall i :: 0 <= i < |r.keys| ==> r.keys[i] in r.cost)
  }

  predicate Edge(g: Adj, a: Eui, b: Eui) {
    a in g && b in g[a].cost
  }

  function W(g: Adj, a: Eui, b: Eui): real
    requires Edge(g, a, b)
  {
    g[a].cost[b]
  }

  /** Rows are dictionaries, edges stay inside the graph and cost something. */
  ghost predicate Valid(g: Adj) {
    && (forall a :: a in g ==> RowValid(g[a]))
    && (forall a, b :: Edge(g, a, b) ==> b in g && W(g, a, b) > 0.0)
  }

  ghost predicate Symmetric(g: Adj) {
    forall a, b :: Edge(g, a, b) ==> Edge(g, b, a) && W(g, b, a) == W(g, a, b)
  }

  // ---------------------------------------------------------------- walks

  predicate IsWalk(g: Adj, p: seq<Eui>, a: Eui, b: Eui) {
    && |p| > 0 && p[0] == a && p[|p| - 1] == b && a in g
    && (forall k :: 0 <= k < |p| - 1 ==> Edge(g, p[k], p[k + 1]))
  }

  function WalkCost(g: Adj, p: seq<Eui>): real
    requires forall k :: 0 <= k < |p| - 1 ==> Edge(g, p[k], p[k + 1])
    decreases |p|
  {
    if |p| <= 1 then 0.0 else WalkCost(g, p[..|p| - 1]) + W(g, p[|p| - 2], p[|p| - 1])
  }

  lemma WalkExtends(g: Adj, p: seq<Eui>, a: Eui, b: Eui, c: Eui)
    requires IsWalk(g, p, a, b) && Edge(g, b, c)
    ensures IsWalk(g, p + [c], a, c) && WalkCost(g, p + [c]) == WalkCost(g, p) + W(g, b, c)
  {
    assert (p + [c])[..|p|] == p;
  }

  /** `d` is the least cost of a walk from `a` to `b`, infinite when there is none. */
  ghost predicate IsDistance(g: Adj, a: Eui, b: Eui, d: Dist) {
    match d
    case Inf => forall p :: !IsWalk(g, p, a, b)
    case Fin(c) =>
      && (exists p :: IsWalk(g, p, a, b) && WalkCost(g, p) == c)
      && (forall p :: IsWalk(g, p, a, b) ==> c <= WalkCost(g, p))
  }

  /** `prev` points along shortest walks back to the root. */
  ghost predicate Points(g: Adj, root: Eui, dist: map<Eui, Dist>, prev: map<Eui, Option<Eui>>, v: Eui)
    requires v in dist && v in prev
  {
    match prev[v]
    case None => v == root || dist[v].Inf?
    case Some(u) =>
      && v != root && dist[v].Fin? && u in dist && dist[u].Fin? && Edge(g, u, v)
      && dist[v].cost == dist[u].cost + W(g, u, v)
  }

  /** Exact distances from the root and a shortest-path tree over them. */
  ghost predicate ShortestTree(g: Adj, root: Eui, dist: map<Eui, Dist>, prev: map<Eui, Option<Eui>>) {
    && dist.Keys == g.Keys && prev.Keys == g.Keys
    && (forall v :: v in g ==> IsDistance(g, root, v, dist[v]))
    && (forall v :: v in g ==> Points(g, root, dist, prev, v))
  }

  // ---------------------------------------------------------------- the search

  type Queue = multiset<(real, Eui)>

  /** What the search knows: distances, predecessors and queue, with the walks found so far and
      the nodes already scanned. */
  datatype Search = Search(dist: map<Eui, Dist>, prev: map<Eui, Option<Eui>>, pq: Queue,
                           walk: map<Eui, seq<Eui>>, done: set<Eui>)

  predicate Known(s: Search, v: Eui) {
    v in s.dist && s.dist[v].Fin?
  }

  /** Every finite distance is the cost of a walk. */
  ghost predicate Reached(g: Adj, root: Eui, s: Search) {
    forall v :: Known(s, v) ==> v in s.walk && IsWalk(g, s.walk[v], root, v) && WalkCost(g, s.walk[v]) == s.dist[v].cost
  }

  /** The queue holds no entry twice, and none that promises less than the known distance. */
  ghost predicate Queued(s: Search) {
    forall e :: e in s.pq ==> s.pq[e] == 1 && Known(s, e.1) && s.dist[e.1].cost <= e.0
  }

  /** A reached node waits in the queue under its distance until its edges are scanned, and
      never again after. */
  ghost predicate Pending(s: Search) {
    forall v :: Known(s, v) ==> (v in s.done <==> (s.dist[v].cost, v) !in s.pq)
  }

  /** Scanned nodes are final: nothing in the queue is nearer. */
  ghost predicate Settled(s: Search) {
    forall x :: x in s.done ==> Known(s, x) && forall e :: e in s.pq ==> s.dist[x].cost <= e.0
  }

  /** The edges of scanned nodes are relaxed, except those from `u` into `todo`. */
  ghost predicate Relaxed(g: Adj, s: Search, u: Eui, todo: set<Eui>) {
    forall x, y :: x in s.done && Edge(g, x, y) && !(x == u && y in todo) ==>
      Known(s, x) && Known(s, y) && s.dist[y].cost <= s.dist[x].cost + W(g, x, y)
  }

  ghost predicate Pointed(g: Adj, root: Eui, s: Search) {
    && s.dist.Keys == g.Keys && s.prev.Keys == g.Keys && root in g && s.dist[root] == Fin(0.0)
    && (forall v :: v in g ==> Points(g, root, s.dist, s.prev, v))
    && (forall v :: v in g && s.prev[v].Some? ==> s.prev[v].value in s.done)
    && (forall v :: Known(s, v) ==> s.dist[v].cost >= 0.0)
  }

  ghost predicate Searching(g: Adj, root: Eui, s: Search, u: Eui, todo: set<Eui>) {
    Pointed(g, root, s) && Reached(g, root, s) && Queued(s) && Pending(s) && Settled(s) && Relaxed(g, s, u, todo)
  }

  // ---------------------------------------------------------------- lowering a distance

  /** The edge from the scanned node `u` shortens the way to `v`. */
  ghost predicate Shortens(g: Adj, root: Eui, s: Search, u: Eui, v: Eui, todo: set<Eui>) {
    && Searching(g, root, s, u, todo) && u in s.done && Edge(g, u, v) && W(g, u, v) > 0.0 && v in g
    && (forall x :: x in s.done ==> s.dist[x].cost <= s.dist[u].cost)
    && (Known(s, v) ==> s.dist[u].cost + W(g, u, v) < s.dist[v].cost)
  }

  ghost function Lower(s: Search, u: Eui, v: Eui, nd: real): Search
    requires u in s.walk
  {
    Search(s.dist[v := Fin(nd)], s.prev[v := Some(u)], s.pq + multiset{(nd, v)}, s.walk[v := s.walk[u] + [v]], s.done)
  }

  lemma ShortensFacts(g: Adj, root: Eui, s: Search, u: Eui, v: Eui, todo: set<Eui>)
    requires Shortens(g, root, s, u, v, todo)
    ensures u in s.walk && u != v && v !in s.done && v != root
    ensures u in s.dist && s.dist[u].Fin? && Known(s, u) && W(g, u, v) > 0.0
    ensures (s.dist[u].cost + W(g, u, v), v) !in s.pq
    ensures forall x :: x in s.done ==> s.dist[x].cost <= s.dist[u].cost + W(g, u, v)
  {
    hide IsWalk, WalkCost;
  }

  /** What is left of the premises once the search state is taken apart. */
  lemma ShortensParts(g: Adj, root: Eui, s: Search, u: Eui, v: Eui, todo: set<Eui>)
    requires Shortens(g, root, s, u, v, todo) && Known(s, u)
    ensures Pointed(g, root, s) && Reached(g, root, s) && Queued(s) && Pending(s) && Settled(s)
    ensures Relaxed(g, s, u, todo)
    ensures u in s.done && Edge(g, u, v) && v in g && (Known(s, v) ==> s.dist[u].cost + W(g, u, v) < s.dist[v].cost)
  {
    hide Pointed, Reached, Queued, Pending, Settled, Relaxed, Edge, W;
  }

  lemma LowerReached(g: Adj, root: Eui, s: Search, u: Eui, v: Eui)
    requires Reached(g, root, s) && Known(s, u) && u in s.walk && Edge(g, u, v)
    ensures Reached(g, root, Lower(s, u, v, s.dist[u].cost + W(g, u, v)))
  {
    WalkExtends(g, s.walk[u], root, u, v);
    hide IsWalk, WalkCost;
  }

  lemma LowerQueued(s: Search, u: Eui, v: Eui, nd: real)
    requires Queued(s) && u in s.walk && (Known(s, v) ==> nd < s.dist[v].cost)
    ensures Queued(Lower(s, u, v, nd))
  {
    var t := Lower(s, u, v, nd);
    forall e | e in t.pq ensures t.pq[e] == 1 && Known(t, e.1) && t.dist[e.1].cost <= e.0 {
      assert e in s.pq ==> Known(s, e.1) && s.dist[e.1].cost <= e.0;
    }
  }

  lemma LowerPending(s: Search, u: Eui, v: Eui, nd: real)
    requires Pending(s) && u in s.walk && v !in s.done && (nd, v) !in s.pq
    ensures Pending(Lower(s, u, v, nd))
  {
    var t := Lower(s, u, v, nd);
    forall x | Known(t, x) ensures x in t.done <==> (t.dist[x].cost, x) !in t.pq {
      assert x != v ==> Known(s, x) && t.dist[x] == s.dist[x];
    }
  }

  lemma LowerSettled(s: Search, u: Eui, v: Eui, nd: real)
    requires Settled(s) && u in s.walk && v !in s.done && (forall x :: x in s.done ==> s.dist[x].cost <= nd)
    ensures Settled(Lower(s, u, v, nd))
  {
    var t := Lower(s, u, v, nd);
    forall x, e | x in t.done && e in t.pq ensures t.dist[x].cost <= e.0 {
      assert e in s.pq || e == (nd, v);
    }
  }

  lemma LowerRelaxed(g: Adj, s: Search, u: Eui, v: Eui, todo: set<Eui>)
    requires Relaxed(g, s, u, todo) && u in s.walk && Known(s, u) && Edge(g, u, v) && v !in s.done
    requires Known(s, v) ==> s.dist[u].cost + W(g, u, v) < s.dist[v].cost
    ensures Relaxed(g, Lower(s, u, v, s.dist[u].cost + W(g, u, v)), u, todo - {v})
  {
    var t := Lower(s, u, v, s.dist[u].cost + W(g, u, v));
    hide W, Edge;
    forall x, y | x in t.done && Edge(g, x, y) && !(x == u && y in todo - {v})
      ensures Known(t, x) && Known(t, y) && t.dist[y].cost <= t.dist[x].cost + W(g, x, y)
    {
      if x != u || y != v { assert Known(s, x) && Known(s, y); }
    }
  }

  lemma LowerPointed(g: Adj, root: Eui, s: Search, u: Eui, v: Eui)
    requires Pointed(g, root, s) && u in s.walk && u in s.done && Known(s, u) && Edge(g, u, v) && W(g, u, v) > 0.0
    requires v in g && v !in s.done && v != root && u != v
    ensures Pointed(g, root, Lower(s, u, v, s.dist[u].cost + W(g, u, v)))
  {
    hide Edge, W;
    var t := Lower(s, u, v, s.dist[u].cost + W(g, u, v));
    forall x | x in g ensures Points(g, root, t.dist, t.prev, x) && (t.prev[x].Some? ==> t.prev[x].value in t.done) {
      assert Points(g, root, s.dist, s.prev, x);
    }
    forall x | Known(t, x) ensures t.dist[x].cost >= 0.0 {
      assert x != v ==> Known(s, x);
    }
  }

  lemma Lowered(g: Adj, root: Eui, s: Search, u: Eui, v: Eui, todo: set<Eui>)
    requires Shortens(g, root, s, u, v, todo)
    ensures u in s.walk && Searching(g, root, Lower(s, u, v, s.dist[u].cost + W(g, u, v)), u, todo - {v})
  {
    hide *;
    ShortensFacts(g, root, s, u, v, todo);
    ShortensParts(g, root, s, u, v, todo);
    var nd := s.dist[u].cost + W(g, u, v);
    LowerReached(g, root, s, u, v);
    LowerQueued(s, u, v, nd);
    LowerPending(s, u, v, nd);
    LowerSettled(s, u, v, nd);
    LowerRelaxed(g, s, u, v, todo);
    LowerPointed(g, root, s, u, v);
    SearchingIs(g, root, Lower(s, u, v, nd), u, todo - {v});
  }

  lemma SearchingIs(g: Adj, root: Eui, s: Search, u: Eui, todo: set<Eui>)
    requires Pointed(g, root, s) && Reached(g, root, s) && Queued(s) && Pending(s) && Settled(s)
    requires Relaxed(g, s, u, todo)
    ensures Searching(g, root, s, u, todo)
  {
    hide Pointed, Reached, Queued, Pending, Settled, Relaxed;
  }

  // ---------------------------------------------------------------- the loop

  ghost predicate Starts(g: Adj, root: Eui, s: Search) {
    && s.dist == (map v | v in g :: if v == root then Fin(0.0) else Inf)
    && s.prev == (map v | v in g :: None)
    && s.pq == multiset{(0.0, root)} && s.walk == map[root := [root]] && s.done == {}
  }

  lemma StartsSearching(g: Adj, root: Eui, s: Search)
    requires root in g && Starts(g, root, s)
    ensures Searching(g, root, s, root, {})
  {
  }

  /** Removing a stale entry. */
  lemma Skipped(g: Adj, root: Eui, s: Search, e: (real, Eui), u: Eui)
    requires Searching(g, root, s, u, {}) && e in s.pq && e.0 > s.dist[e.1].cost
    ensures Searching(g, root, s.(pq := s.pq - multiset{e}), u, {})
  {
    var t := s.(pq := s.pq - multiset{e});
    hide Points, IsWalk, WalkCost, Edge, W;
    assert Reached(g, root, t) && Pointed(g, root, t) && Relaxed(g, t, u, {});
    hide Reached, Pointed, Relaxed;
    forall f | f in t.pq ensures t.pq[f] == 1 && Known(t, f.1) && t.dist[f.1].cost <= f.0 {
      assert f in s.pq;
    }
    forall v | Known(t, v) ensures v in t.done <==> (t.dist[v].cost, v) !in t.pq {
      assert Known(s, v);
      assert (t.dist[v].cost, v) != e;
    }
  }

  ghost function Open(s: Search, e: (real, Eui)): Search {
    s.(pq := s.pq - multiset{e}, done := s.done + {e.1})
  }

  lemma OpenQueued(s: Search, e: (real, Eui))
    requires Queued(s) && Pending(s) && e in s.pq && Known(s, e.1) && s.dist[e.1].cost == e.0
    ensures Queued(Open(s, e)) && Pending(Open(s, e))
  {
    var t := Open(s, e);
    forall f | f in t.pq ensures t.pq[f] == 1 && Known(t, f.1) && t.dist[f.1].cost <= f.0 {
      assert f in s.pq;
    }
    forall v | Known(t, v) ensures v in t.done <==> (t.dist[v].cost, v) !in t.pq {
      assert Known(s, v);
    }
  }

  lemma OpenSettled(s: Search, e: (real, Eui))
    requires Settled(s) && e in s.pq && Known(s, e.1) && s.dist[e.1].cost == e.0
    requires forall f :: f in s.pq ==> e.0 <= f.0
    ensures Settled(Open(s, e)) && forall x :: x in s.done + {e.1} ==> s.dist[x].cost <= e.0
  {
    var t := Open(s, e);
    forall x | x in t.done
      ensures Known(t, x) && t.dist[x].cost <= e.0 && forall f :: f in t.pq ==> t.dist[x].cost <= f.0
    {
      assert x in s.done || x == e.1;
    }
  }

  lemma OpenRelaxed(g: Adj, s: Search, e: (real, Eui), u: Eui)
    requires Relaxed(g, s, u, {}) && e.1 in g
    ensures Relaxed(g, Open(s, e), e.1, g[e.1].cost.Keys)
  {
    hide W;
  }

  lemma OpenPointed(g: Adj, root: Eui, s: Search, e: (real, Eui))
    requires Pointed(g, root, s) && Reached(g, root, s)
    ensures Pointed(g, root, Open(s, e)) && Reached(g, root, Open(s, e))
  {
    hide Points, IsWalk, WalkCost;
  }

  /** Taking the nearest entry, when it is current, starts the scan of its node. */
  lemma Opened(g: Adj, root: Eui, s: Search, e: (real, Eui), u: Eui)
    requires Searching(g, root, s, u, {}) && e in s.pq && (forall f :: f in s.pq ==> e.0 <= f.0)
    requires Known(s, e.1) && e.0 <= s.dist[e.1].cost
    ensures e.1 !in s.done && e.1 in g
    ensures var t := Open(s, e);
            && Searching(g, root, t, e.1, g[e.1].cost.Keys)
            && forall x :: x in t.done ==> t.dist[x].cost <= t.dist[e.1].cost
  {
    assert s.dist[e.1].cost == e.0 && e.1 !in s.done && e.1 in g;
    hide Pointed, Reached, Queued, Pending, Settled, Relaxed;
    OpenQueued(s, e);
    OpenSettled(s, e);
    OpenRelaxed(g, s, e, u);
    OpenPointed(g, root, s, e);
  }

  /** An edge that shortens nothing is relaxed already. */
  lemma Kept(g: Adj, root: Eui, s: Search, u: Eui, v: Eui, todo: set<Eui>)
    requires Searching(g, root, s, u, todo) && Known(s, u) && Edge(g, u, v) && Known(s, v)
    requires s.dist[u].cost + W(g, u, v) >= s.dist[v].cost
    ensures Searching(g, root, s, u, todo - {v})
  {
    hide Pointed, Reached, Queued, Pending, Settled;
  }

  /** With the queue empty every walk is at least as long as the distance of its end. */
  lemma {:induction false} WalksAreLonger(g: Adj, root: Eui, s: Search, p: seq<Eui>, v: Eui)
    requires Searching(g, root, s, root, {}) && s.pq == multiset{} && IsWalk(g, p, root, v)
    ensures Known(s, v) && s.dist[v].cost <= WalkCost(g, p)
    decreases |p|
  {
    if |p| == 1 {
      assert Known(s, root);
    } else {
      var q := p[..|p| - 1];
      var u := p[|p| - 2];
      assert IsWalk(g, q, root, u);
      assert Edge(g, u, v);
      hide IsWalk;
      WalksAreLonger(g, root, s, q, u);
      AllDone(g, root, s, u, v);
    }
  }

  lemma AllDone(g: Adj, root: Eui, s: Search, u: Eui, v: Eui)
    requires Searching(g, root, s, root, {}) && s.pq == multiset{} && Known(s, u) && Edge(g, u, v)
    ensures Known(s, v) && s.dist[v].cost <= s.dist[u].cost + W(g, u, v)
  {
    hide Pointed, Reached, Queued, Settled, W, Edge;
    assert u in s.done;
  }

  lemma Finished(g: Adj, root: Eui, s: Search)
    requires Searching(g, root, s, root, {}) && s.pq == multiset{}
    ensures ShortestTree(g, root, s.dist, s.prev)
  {
    assert Pointed(g, root, s);
    forall v | v in g ensures IsDistance(g, root, v, s.dist[v]) {
      forall p | IsWalk(g, p, root, v) ensures Known(s, v) && s.dist[v].cost <= WalkCost(g, p) {
        WalksAreLonger(g, root, s, p, v);
      }
      assert Known(s, v) ==> IsWalk(g, s.walk[v], root, v);
    }
  }

  /** With nothing left to relax it does not matter which node was scanned last. */
  lemma Retarget(g: Adj, root: Eui, s: Search, u: Eui, v: Eui)
    requires Searching(g, root, s, u, {})
    ensures Searching(g, root, s, v, {})
  {
    hide Pointed, Reached, Queued, Pending, Settled;
  }

  lemma {:induction false} LeastEntry(pq: Queue)
    requires pq != multiset{}
    ensures exists e :: e in pq && forall f :: f in pq ==> e.0 <= f.0
    decreases |pq|
  {
    var e :| e in pq;
    var rest := pq - multiset{e};
    if rest != multiset{} {
      LeastEntry(rest);
      var m :| m in rest && forall f :: f in rest ==> m.0 <= f.0;
      var least := if m.0 < e.0 then m else e;
      assert least in pq;
      forall f | f in pq ensures least.0 <= f.0 {
        assert f in rest || f == e;
      }
    } else {
      assert pq == multiset{e};
    }
  }

  ghost function Rest(keys: seq<Eui>, i: nat): set<Eui>
    requires i <= |keys|
  {
    set v | v in keys[i..]
  }

  lemma RestSteps(r: Row, i: nat)
    requires RowValid(r) && i < |r.keys|
    ensures r.keys[i] in r.cost && Rest(r.keys, i) - {r.keys[i]} == Rest(r.keys, i + 1)
  {
    assert r.keys[i..] == [r.keys[i]] + r.keys[i + 1..];
  }

  lemma RestEnds(r: Row)
    requires RowValid(r)
    ensures Rest(r.keys, 0) == r.cost.Keys && Rest(r.keys, |r.keys|) == {}
  {
    assert r.keys[0..] == r.keys;
    forall k | k in r.keys ensures k in r.cost {
    }
    assert forall k :: k in Rest(r.keys, 0) <==> k in r.cost;
  }

  lemma Shrinks(g: Adj, done: set<Eui>, u: Eui)
    requires u in g && u !in done
    ensures |g.Keys - (done + {u})| < |g.Keys - done|
  {
    assert g.Keys - done == (g.Keys - (done + {u})) + {u};
  }

  /** The state inside the inner loop: `u` is being scanned at distance `d`, the edges into
      `todo` are still to come. */
  ghost predicate Scanning(g: Adj, root: Eui, s: Search, u: Eui, d: real, todo: set<Eui>) {
    && Searching(g, root, s, u, todo) && u in g && u in s.done && u in s.dist && s.dist[u] == Fin(d)
    && (forall x :: x in s.done ==> x in s.dist && s.dist[x].Fin? && s.dist[x].cost <= d)
  }

  lemma EdgeFacts(g: Adj, root: Eui, s: Search, u: Eui, v: Eui, todo: set<Eui>)
    requires Valid(g) && Searching(g, root, s, u, todo) && u in g && v in g[u].cost
    ensures v in g && v in s.dist && g[u].cost[v] > 0.0
  {
    assert Edge(g, u, v);
    hide Reached, Pending, Settled, Relaxed, Points, Queued;
  }

  lemma LoweredEdge(g: Adj, root: Eui, s: Search, u: Eui, v: Eui, todo: set<Eui>, d: real)
    requires Scanning(g, root, s, u, d, todo) && v in g[u].cost && v in g && g[u].cost[v] > 0.0
    requires Known(s, v) ==> d + g[u].cost[v] < s.dist[v].cost
    ensures u in s.walk && Scanning(g, root, Lower(s, u, v, d + g[u].cost[v]), u, d, todo - {v})
  {
    hide Searching;
    Lowered(g, root, s, u, v, todo);
    ShortensFacts(g, root, s, u, v, todo);
  }

  lemma KeptEdge(g: Adj, root: Eui, s: Search, u: Eui, v: Eui, todo: set<Eui>, d: real)
    requires Scanning(g, root, s, u, d, todo) && v in g[u].cost && Known(s, v) && d + g[u].cost[v] >= s.dist[v].cost
    ensures Scanning(g, root, s, u, d, todo - {v})
  {
    hide Searching;
    Kept(g, root, s, u, v, todo);
  }

  lemma ScanFacts(g: Adj, root: Eui, s: Search, u: Eui, d: real, todo: set<Eui>, v: Eui)
    requires Valid(g) && u in g && Scanning(g, root, s, u, d, todo) && v in g[u].cost
    ensures v in g && v in s.dist && g[u].cost[v] > 0.0 && (Known(s, v) <==> s.dist[v].Fin?) && u in s.walk
  {
    EdgeFacts(g, root, s, u, v, todo);
    hide Valid, IsWalk, WalkCost, Queued, Pending, Settled, Relaxed, Pointed;
    assert Known(s, u);
  }

  /** What looking at the edge to `v` makes of the search. */
  ghost function Scanned(s: Search, u: Eui, v: Eui, nd: real): Search
    requires u in s.walk && v in s.dist
  {
    if s.dist[v].Inf? || nd < s.dist[v].cost then Lower(s, u, v, nd) else s
  }

  lemma RowOf(g: Adj, u: Eui)
    requires Valid(g) && u in g
    ensures RowValid(g[u])
  {
  }

  lemma ScanStep(g: Adj, root: Eui, s: Search, u: Eui, d: real, i: nat)
    requires Valid(g) && u in g && i < |g[u].keys| && Scanning(g, root, s, u, d, Rest(g[u].keys, i))
    ensures var v := g[u].keys[i];
            v in g[u].cost && v in s.dist && u in s.walk
            && Scanning(g, root, Scanned(s, u, v, d + g[u].cost[v]), u, d, Rest(g[u].keys, i + 1))
  {
    hide Scanning, Valid, RowValid, Rest, Known, Lower;
    var v := g[u].keys[i];
    RowOf(g, u);
    RestSteps(g[u], i);
    ScanFacts(g, root, s, u, d, Rest(g[u].keys, i), v);
    if s.dist[v].Inf? || d + g[u].cost[v] < s.dist[v].cost {
      LoweredEdge(g, root, s, u, v, Rest(g[u].keys, i), d);
    } else {
      KeptEdge(g, root, s, u, v, Rest(g[u].keys, i), d);
    }
  }

  /** The inner loop of `_dijkstra`: go through the edges of the node just taken. */
  method ScanEdges(g: Adj, ghost root: Eui, u: Eui, d: real, dist0: map<Eui, Dist>, prev0: map<Eui, Option<Eui>>,
                   pq0: Queue,
                   ghost walk0: map<Eui, seq<Eui>>, ghost done: set<Eui>)
    returns (dist: map<Eui, Dist>, prev: map<Eui, Option<Eui>>, pq: Queue, ghost walk: map<Eui, seq<Eui>>)
    requires Valid(g) && u in g && Scanning(g, root, Search(dist0, prev0, pq0, walk0, done), u, d, g[u].cost.Keys)
    ensures Scanning(g, root, Search(dist, prev, pq, walk, done), u, d, {})
  {
    hide Scanning, Valid, RowValid, Rest;
    dist, prev, pq, walk := dist0, prev0, pq0, walk0;
    var row := g[u];
    RowOf(g, u);
    RestEnds(row);
    for i := 0 to |row.keys|
      invariant Scanning(g, root, Search(dist, prev, pq, walk, done), u, d, Rest(row.keys, i))
    {
      ScanStep(g, root, Search(dist, prev, pq, walk, done), u, d, i);
      var v := row.keys[i];
      var nd := d + row.cost[v];
      if dist[v].Inf? || nd < dist[v].cost {
        walk := walk[v := walk[u] + [v]];
        dist := dist[v := Fin(nd)];
        prev := prev[v := Some(u)];
        pq := pq + multiset{(nd, v)};
      }
    }
  }

  // ---------------------------------------------------------------- the outer loop

  lemma EntryKnown(g: Adj, root: Eui, s: Search, e: (real, Eui))
    requires Searching(g, root, s, root, {}) && e in s.pq
    ensures e.1 in s.dist && s.dist[e.1].Fin? && Known(s, e.1) && e.1 in g
  {
    hide Reached, Pending, Settled, Relaxed, Points;
  }

  lemma OpenedScanning(g: Adj, root: Eui, s: Search, e: (real, Eui))
    requires Searching(g, root, s, root, {}) && e in s.pq && (forall f :: f in s.pq ==> e.0 <= f.0)
    requires Known(s, e.1) && e.1 in g && e.0 <= s.dist[e.1].cost
    ensures e.1 !in s.done && Scanning(g, root, Open(s, e), e.1, s.dist[e.1].cost, g[e.1].cost.Keys)
  {
    Opened(g, root, s, e, root);
    var t := Open(s, e);
    assert Settled(t);
    hide Searching, Settled;
    forall x | x in t.done ensures x in t.dist && t.dist[x].Fin? {
      DoneKnown(t, x);
    }
  }

  lemma DoneKnown(s: Search, x: Eui)
    requires Settled(s) && x in s.done
    ensures x in s.dist && s.dist[x].Fin?
  {
  }

  lemma ScannedSearching(g: Adj, root: Eui, s: Search, u: Eui, d: real)
    requires Scanning(g, root, s, u, d, {})
    ensures Searching(g, root, s, root, {})
  {
    Retarget(g, root, s, u, root);
    hide Searching;
  }

  /** Taking a nearest entry off the queue: a stale one is dropped, a current one opens its node. */
  lemma Popped(g: Adj, root: Eui, s: Search, e: (real, Eui))
    requires Searching(g, root, s, root, {}) && e in s.pq && (forall f :: f in s.pq ==> e.0 <= f.0)
    ensures e.1 in s.dist && s.dist[e.1].Fin? && e.1 in g
    ensures var d, u, t := s.dist[e.1].cost, e.1, s.(pq := s.pq - multiset{e});
            if e.0 > d then Searching(g, root, t, root, {})
            else u !in s.done && Scanning(g, root, t.(done := s.done + {u}), u, d, g[u].cost.Keys)
                 && |g.Keys - (s.done + {u})| < |g.Keys - s.done|
  {
    hide Searching, Scanning, Known;
    EntryKnown(g, root, s, e);
    if e.0 > s.dist[e.1].cost {
      Skipped(g, root, s, e, root);
    } else {
      OpenedScanning(g, root, s, e);
      Shrinks(g, s.done, e.1);
    }
  }

  lemma NothingReached(g: Adj, root: Eui, dist: map<Eui, Dist>, prev: map<Eui, Option<Eui>>)
    requires root !in g && dist.Keys == g.Keys && prev.Keys == g.Keys
    requires forall v :: v in g ==> dist[v].Inf? && prev[v].None?
    ensures ShortestTree(g, root, dist, prev)
  {
  }

  /** `_dijkstra`: exact distances and a shortest-path tree, whatever way ties are broken; the
      edges of a node are gone through at most once. */
  method Dijkstra(g: Adj, root: Eui) returns (dist: map<Eui, Dist>, prev: map<Eui, Option<Eui>>, ghost scans: seq<Eui>)
    requires Valid(g)
    ensures ShortestTree(g, root, dist, prev)
    ensures Distinct(scans)
  {
    hide Searching, Scanning, ShortestTree, Valid, Distinct;
    dist := map v | v in g :: Inf;
    prev := map v | v in g :: None;
    scans := [];
    DistinctEmpty<Eui>();
    if root !in g {
      NothingReached(g, root, dist, prev);
      return;
    }
    dist := dist[root := Fin(0.0)];
    var pq: Queue := multiset{(0.0, root)};
    ghost var walk, done := map[root := [root]], {};
    StartsSearching(g, root, Search(dist, prev, pq, walk, done));
    while pq != multiset{}
      invariant Searching(g, root, Search(dist, prev, pq, walk, done), root, {})
      invariant Distinct(scans) && forall x :: x in scans ==> x in done
      decreases |g.Keys - done|, |pq|
    {
      LeastEntry(pq);
      var e :| e in pq && forall f :: f in pq ==> e.0 <= f.0;
      Popped(g, root, Search(dist, prev, pq, walk, done), e);
      var d, u := e.0, e.1;
      pq := pq - multiset{e};
      if d > dist[u].cost {
        continue;
      }
      DistinctSnoc(scans, u);
      done, scans := done + {u}, scans + [u];
      d := dist[u].cost;
      dist, prev, pq, walk := ScanEdges(g, root, u, d, dist, prev, pq, walk, done);
      ScannedSearching(g, root, Search(dist, prev, pq, walk, done), u, d);
    }
    Finished(g, root, Search(dist, prev, pq, walk, done));
  }
}
