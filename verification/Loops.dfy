/** What chains of parents do: how long they can get, when they cannot loop, and that without the
    distance bound they can. */
module Loops {
  import opened Arithmetic
  import opened Graph
  import opened Parents
  import opened Sequences
  import opened Wrappers

  /** One tick of the router as its choices depend on it. */
  datatype Tick = Tick(g: Adj, root: Eui, dist: map<Eui, Dist>, prev: map<Eui, Option<Eui>>, margin: real) {
    ghost predicate Valid() {
      Graph.Valid(g) && Symmetric(g) && ShortestTree(g, root, dist, prev) && 0.0 <= margin < 1.0
    }
  }

  /** A module, as opposed to the gateway. */
  predicate Module(t: Tick, n: Eui) {
    n in t.g && n != t.root
  }

  /** `o` is what the tick makes of some earlier parent of `n`, however stale. */
  ghost predicate Picked(t: Tick, n: Eui, o: Option<Eui>) {
    Ready(t.g, t.dist, t.prev, n) && exists current :: o == ChoosePrimary(t.g, t.dist, t.prev, n, current, t.margin)
  }

  ghost predicate Chosen(t: Tick, prim: map<Eui, Option<Eui>>) {
    forall n :: Module(t, n) ==> (n in prim && Picked(t, n, prim[n]))
  }

  lemma PickedFacts(t: Tick, n: Eui, o: Option<Eui>)
    requires t.Valid() && Picked(t, n, o) && Module(t, n)
    ensures n in t.dist && (o.None? <==> t.dist[n].Inf?)
    ensures o.Some? ==>
              var p := o.value;
              && Edge(t.g, n, p) && p in t.dist && t.dist[p].Fin?
              && Scaled(t.dist[p].cost + W(t.g, n, p), t.margin) <= t.dist[n].cost
  {
    hide Scaled, ChoosePrimary, Graph.Valid, Symmetric, ShortestTree;
    var current :| o == ChoosePrimary(t.g, t.dist, t.prev, n, current, t.margin);
    PrimaryFacts(t.g, t.root, t.dist, t.prev, n, current, t.margin);
  }

  lemma ChosenFacts(t: Tick, prim: map<Eui, Option<Eui>>, n: Eui)
    requires t.Valid() && Chosen(t, prim) && Module(t, n)
    ensures n in prim && n in t.dist && (prim[n].None? <==> t.dist[n].Inf?)
    ensures prim[n].Some? ==>
              var p := prim[n].value;
              && Edge(t.g, n, p) && p in t.dist && t.dist[p].Fin?
              && Scaled(t.dist[p].cost + W(t.g, n, p), t.margin) <= t.dist[n].cost
  {
    hide Tick.Valid, Picked, Scaled;
    PickedFacts(t, n, prim[n]);
  }

  // ---------------------------------------------------------------- stretch

  /** Each node is the primary of the one before, and the last is the gateway. */
  ghost predicate Chain(t: Tick, prim: map<Eui, Option<Eui>>, p: seq<Eui>) {
    && |p| > 0 && p[|p| - 1] == t.root && t.root in t.g
    && (forall k :: 0 <= k < |p| - 1 ==> Module(t, p[k]) && p[k] in prim && prim[p[k]] == Some(p[k + 1]))
  }

  lemma ChainEdges(t: Tick, prim: map<Eui, Option<Eui>>, p: seq<Eui>)
    requires t.Valid() && Chosen(t, prim) && Chain(t, prim, p)
    ensures forall k :: 0 <= k < |p| - 1 ==> Edge(t.g, p[k], p[k + 1])
  {
    hide Tick.Valid, Chosen, Edge;
    forall k | 0 <= k < |p| - 1 ensures Edge(t.g, p[k], p[k + 1]) {
      ChosenFacts(t, prim, p[k]);
    }
  }

  /** The cost of a walk, taken from its front. */
  lemma {:induction false} WalkFront(g: Adj, p: seq<Eui>)
    requires |p| > 1 && forall k :: 0 <= k < |p| - 1 ==> Edge(g, p[k], p[k + 1])
    ensures forall k :: 0 <= k < |p[1..]| - 1 ==> Edge(g, p[1..][k], p[1..][k + 1])
    ensures WalkCost(g, p) == W(g, p[0], p[1]) + WalkCost(g, p[1..])
    decreases |p|
  {
    hide W;
    forall k | 0 <= k < |p[1..]| - 1 ensures Edge(g, p[1..][k], p[1..][k + 1]) {
      assert Edge(g, p[k + 1], p[k + 2]);
    }
    if |p| > 2 {
      var q := p[..|p| - 1];
      WalkFront(g, q);
      assert q[1..] == p[1..][..|p| - 2];
      assert Edge(g, p[|p| - 2], p[|p| - 1]);
    }
  }

  lemma StretchStep(w: real, rest: real, d1: real, d0: real, margin: real, r: real, s: real)
    requires 0.0 <= margin < 1.0 && 0.0 < r <= 1.0 && w >= 0.0 && s == (1.0 - margin) * r
    requires Prod(rest, r) <= d1 && Scaled(d1 + w, margin) <= d0
    ensures Prod(w + rest, s) <= d0
  {
    hide *;
    var q := 1.0 - margin;
    Split(w, rest, r);
    Below(w, r);
    Regroup(w + rest, q, r, s);
    Monotone(q, Prod(w + rest, r), d1 + w);
    ScaledIs(d1 + w, margin);
  }

  lemma Split(w: real, rest: real, r: real)
    ensures Prod(w + rest, r) == Prod(w, r) + Prod(rest, r)
  {
  }

  lemma Below(w: real, r: real)
    requires w >= 0.0 && r <= 1.0
    ensures Prod(w, r) <= w
  {
    Monotone(w + 1.0, r, 1.0);
    assert w * (1.0 - r) >= 0.0;
  }

  lemma Regroup(x: real, q: real, r: real, s: real)
    requires s == q * r
    ensures Prod(x, s) == q * Prod(x, r)
  {
  }

  lemma ScaledIs(x: real, margin: real)
    ensures Scaled(x, margin) == (1.0 - margin) * x
  {
  }

  lemma Monotone(q: real, x: real, y: real)
    requires q > 0.0 && x <= y
    ensures q * x <= q * y
  {
  }

  /** A chain of `k` primaries that reaches the gateway costs at most `dist / (1 - margin)^k`. */
  lemma {:induction false} StretchBound(t: Tick, prim: map<Eui, Option<Eui>>, p: seq<Eui>)
    requires t.Valid() && Chosen(t, prim) && Chain(t, prim, p)
    ensures forall k :: 0 <= k < |p| - 1 ==> Edge(t.g, p[k], p[k + 1])
    ensures p[0] in t.dist && t.dist[p[0]].Fin?
    ensures Prod(WalkCost(t.g, p), Power(1.0 - t.margin, |p| - 1)) <= t.dist[p[0]].cost
    decreases |p|
  {
    hide Tick.Valid, Chosen, Scaled, Prod, W, WalkCost, Power;
    ChainEdges(t, prim, p);
    TickFacts(t);
    if |p| == 1 {
      Trivial(t.g, p);
    } else {
      var rest := p[1..];
      ChainTail(t, prim, p);
      StretchBound(t, prim, rest);
      WalkFront(t.g, p);
      ChosenFacts(t, prim, p[0]);
      PowerRange(1.0 - t.margin, |p| - 2);
      EdgePositive(t, p[0], p[1]);
      PowerStep(1.0 - t.margin, |p| - 2);
      StretchStep(W(t.g, p[0], p[1]), WalkCost(t.g, rest), t.dist[p[1]].cost, t.dist[p[0]].cost, t.margin,
                  Power(1.0 - t.margin, |p| - 2), Power(1.0 - t.margin, |p| - 1));
    }
  }

  lemma ChainTail(t: Tick, prim: map<Eui, Option<Eui>>, p: seq<Eui>)
    requires Chain(t, prim, p) && |p| > 1
    ensures Chain(t, prim, p[1..]) && Module(t, p[0]) && p[0] in prim && prim[p[0]] == Some(p[1])
  {
  }

  lemma Trivial(g: Adj, p: seq<Eui>)
    requires |p| == 1
    ensures Prod(WalkCost(g, p), Power(1.0, 0)) == 0.0 && WalkCost(g, p) == 0.0
    ensures forall q :: Prod(WalkCost(g, p), q) == 0.0
  {
  }

  lemma TickFacts(t: Tick)
    requires t.Valid()
    ensures 0.0 < 1.0 - t.margin <= 1.0 && t.dist.Keys == t.g.Keys
    ensures t.root in t.g ==> t.dist[t.root] == Fin(0.0)
  {
    if t.root in t.g { RootZero(t.g, t.root, t.dist, t.prev); }
  }

  lemma EdgePositive(t: Tick, a: Eui, b: Eui)
    requires t.Valid() && Edge(t.g, a, b)
    ensures W(t.g, a, b) > 0.0 && b in t.g && Edge(t.g, b, a) && W(t.g, b, a) == W(t.g, a, b)
  {
  }

  // ---------------------------------------------------------------- conditional loop freedom

  /** The distance bound: the edge to the chosen parent outweighs what the margin can hide. */
  predicate Near(t: Tick, n: Eui, p: Eui)
    requires n in t.dist && t.dist[n].Fin? && Edge(t.g, n, p)
  {
    Prod(t.dist[n].cost, t.margin) < Scaled(W(t.g, n, p), t.margin)
  }

  ghost predicate AllNear(t: Tick, prim: map<Eui, Option<Eui>>) {
    forall n :: Module(t, n) && n in prim && prim[n].Some? ==>
      n in t.dist && t.dist[n].Fin? && Edge(t.g, n, prim[n].value) && Near(t, n, prim[n].value)
  }

  /** Every primary is strictly closer to the gateway than its module. */
  ghost predicate AllDown(t: Tick, prim: map<Eui, Option<Eui>>) {
    forall n :: Module(t, n) && n in prim && prim[n].Some? ==> Closer(t, n, prim[n].value)
  }

  predicate Closer(t: Tick, n: Eui, p: Eui) {
    n in t.dist && t.dist[n].Fin? && p in t.dist && t.dist[p].Fin? && p in t.g && t.dist[p].cost < t.dist[n].cost
  }

  lemma NearCloser(d: real, w: real, dp: real, margin: real)
    requires 0.0 <= margin < 1.0 && Scaled(dp + w, margin) <= d && Prod(d, margin) < Scaled(w, margin)
    ensures dp < d
  {
    var q := 1.0 - margin;
    assert (dp + w) * q == dp * q + w * q;
    assert d * q == d - d * margin;
    assert dp * q < d * q;
    if dp >= d { Monotone(q, d, dp); }
  }

  /** One hop toward the gateway: to the primary or to the secondary. */
  predicate Hop(t: Tick, prim: map<Eui, Option<Eui>>, sec: map<Eui, Option<Eui>>, n: Eui, x: Eui) {
    Module(t, n) && n in prim && n in sec && (prim[n] == Some(x) || sec[n] == Some(x))
  }

  /** `sec` is what the tick chooses as secondaries beside `prim`. */
  ghost predicate Backed(t: Tick, prim: map<Eui, Option<Eui>>, sec: map<Eui, Option<Eui>>) {
    forall n :: Module(t, n) ==>
      (n in prim && n in sec && RowReady(t.g, t.dist, n) && sec[n] == ChooseSecondary(t.g, t.dist, n, prim[n]))
  }

  lemma SecondaryCloser(t: Tick, prim: map<Eui, Option<Eui>>, sec: map<Eui, Option<Eui>>, n: Eui)
    requires Backed(t, prim, sec) && Module(t, n) && n in t.dist && t.dist[n].Fin?
    ensures n in sec && (sec[n].Some? ==> var x := sec[n].value;
              Edge(t.g, n, x) && x in t.dist && t.dist[x].Fin? && t.dist[x].cost < t.dist[n].cost)
  {
    hide Edge, RowReady;
  }

  /** Under the distance bound every primary is strictly closer. */
  lemma NearIsDown(t: Tick, prim: map<Eui, Option<Eui>>)
    requires t.Valid() && Chosen(t, prim) && AllNear(t, prim)
    ensures AllDown(t, prim)
  {
    hide Tick.Valid, Chosen, Edge, W, Scaled, Prod;
    TickFacts(t);
    forall n | Module(t, n) && n in prim && prim[n].Some? ensures Closer(t, n, prim[n].value) {
      var p := prim[n].value;
      ChosenFacts(t, prim, n);
      NearCloser(t.dist[n].cost, W(t.g, n, p), t.dist[p].cost, t.margin);
    }
  }

  /** Where every primary is strictly closer, every hop, primary or secondary, leads strictly closer. */
  lemma HopDescends(t: Tick, prim: map<Eui, Option<Eui>>, sec: map<Eui, Option<Eui>>, n: Eui, x: Eui)
    requires t.Valid() && Backed(t, prim, sec) && AllDown(t, prim) && Hop(t, prim, sec, n, x)
    requires n in t.dist && t.dist[n].Fin?
    ensures x in t.dist && t.dist[x].Fin? && t.dist[x].cost < t.dist[n].cost && x in t.g
  {
    hide Tick.Valid, Backed, Edge;
    TickFacts(t);
    if prim[n] != Some(x) { SecondaryCloser(t, prim, sec, n); }
  }

  ghost predicate HopChain(t: Tick, prim: map<Eui, Option<Eui>>, sec: map<Eui, Option<Eui>>, p: seq<Eui>) {
    |p| > 0 && p[0] in t.dist && t.dist[p[0]].Fin? && forall k :: 0 <= k < |p| - 1 ==> Hop(t, prim, sec, p[k], p[k + 1])
  }

  lemma {:induction false} ChainDescends(t: Tick, prim: map<Eui, Option<Eui>>, sec: map<Eui, Option<Eui>>, p: seq<Eui>,
                                         i: nat, j: nat)
    requires t.Valid() && Backed(t, prim, sec) && AllDown(t, prim) && HopChain(t, prim, sec, p)
    requires i <= j < |p|
    ensures p[i] in t.dist && t.dist[p[i]].Fin? && p[j] in t.dist && t.dist[p[j]].Fin?
    ensures if i == j then true else t.dist[p[j]].cost < t.dist[p[i]].cost
    decreases j, i
  {
    hide Tick.Valid, Backed, AllDown, Hop;
    if j > 0 {
      if i < j {
        ChainDescends(t, prim, sec, p, i, j - 1);
      } else {
        ChainDescends(t, prim, sec, p, j - 1, j - 1);
      }
      assert Hop(t, prim, sec, p[j - 1], p[j]);
      HopDescends(t, prim, sec, p[j - 1], p[j]);
    }
  }

  /** Where every primary is strictly closer: whatever mixture of primary and secondary hops a packet takes,
      it never meets a node twice, so it takes fewer hops than there are nodes, and wherever it stands
      short of the gateway there is a next hop: it ends at the gateway. */
  lemma MixedHopsDeliver(t: Tick, prim: map<Eui, Option<Eui>>, sec: map<Eui, Option<Eui>>, p: seq<Eui>)
    requires t.Valid() && Chosen(t, prim) && Backed(t, prim, sec) && AllDown(t, prim) && HopChain(t, prim, sec, p)
    ensures Distinct(p) && |p| <= |t.g.Keys|
    ensures p[|p| - 1] != t.root ==> GoesOn(t, prim, sec, p[|p| - 1])
  {
    hide Tick.Valid, Chosen, Backed, AllDown, Hop;
    forall i, j | 0 <= i < j < |p| ensures p[i] != p[j] {
      ChainDescends(t, prim, sec, p, i, j);
    }
    TickFacts(t);
    forall k | 0 <= k < |p| ensures p[k] in t.g.Keys {
      ChainDescends(t, prim, sec, p, k, k);
    }
    Pigeonhole(p, t.g.Keys);
    var last := p[|p| - 1];
    ChainDescends(t, prim, sec, p, |p| - 1, |p| - 1);
    if last != t.root {
      NextHop(t, prim, sec, last);
    }
  }

  /** So in particular under the distance bound. */
  lemma NearHopsDeliver(t: Tick, prim: map<Eui, Option<Eui>>, sec: map<Eui, Option<Eui>>, p: seq<Eui>)
    requires t.Valid() && Chosen(t, prim) && Backed(t, prim, sec) && AllNear(t, prim) && HopChain(t, prim, sec, p)
    ensures Distinct(p) && |p| <= |t.g.Keys|
    ensures p[|p| - 1] != t.root ==> GoesOn(t, prim, sec, p[|p| - 1])
  {
    hide *;
    NearIsDown(t, prim);
    MixedHopsDeliver(t, prim, sec, p);
  }

  ghost predicate GoesOn(t: Tick, prim: map<Eui, Option<Eui>>, sec: map<Eui, Option<Eui>>, n: Eui) {
    exists x :: Hop(t, prim, sec, n, x)
  }

  lemma NextHop(t: Tick, prim: map<Eui, Option<Eui>>, sec: map<Eui, Option<Eui>>, n: Eui)
    requires t.Valid() && Chosen(t, prim) && Backed(t, prim, sec) && n in t.dist && t.dist[n].Fin? && n != t.root
    requires n in t.g
    ensures GoesOn(t, prim, sec, n)
  {
    hide Tick.Valid, Chosen;
    ChosenFacts(t, prim, n);
    assert Hop(t, prim, sec, n, prim[n].value);
  }

  lemma {:induction false} Pigeonhole(p: seq<Eui>, s: set<Eui>)
    requires Distinct(p) && forall k :: 0 <= k < |p| ==> p[k] in s
    ensures |p| <= |s|
    decreases |p|
  {
    if p != [] {
      var x := p[|p| - 1];
      Pigeonhole(p[..|p| - 1], s - {x});
    }
  }

  /** Where every edge costs at least one, as plausible reports make it, being close to the gateway
      is enough: with the default margin of 0.15, any distance below 5.66. */
  lemma CloseNetworksAreNear(t: Tick, prim: map<Eui, Option<Eui>>)
    requires t.Valid() && Chosen(t, prim) && forall a, b :: Edge(t.g, a, b) ==> W(t.g, a, b) >= 1.0
    requires forall n :: Module(t, n) && n in t.dist && t.dist[n].Fin? ==>
                           Prod(t.dist[n].cost, t.margin) < 1.0 - t.margin
    ensures AllNear(t, prim)
  {
    hide Tick.Valid, Chosen, Edge, W, Prod;
    forall n | Module(t, n) && n in prim && prim[n].Some?
      ensures n in t.dist && t.dist[n].Fin? && Edge(t.g, n, prim[n].value) && Near(t, n, prim[n].value)
    {
      ChosenFacts(t, prim, n);
      TickFacts(t);
      Monotone(1.0 - t.margin, 1.0, W(t.g, n, prim[n].value));
    }
  }
}
