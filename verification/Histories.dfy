/** Ticks one after another (olympus_link/autorouter.py): the parents that histories of ticks leave
    behind, and exactly when they can loop. */
module Histories {
  import opened Adjacency
  import opened Graph
  import opened Loops
  import opened Parents
  import opened Sequences
  import opened Wrappers

  // ---------------------------------------------------------------- ticks one after another

  /** The primary of `n` when its parent before this tick was `cur[n]`. */
  function PrimaryUnder(t: Tick, cur: map<Eui, Option<Eui>>, n: Eui): Option<Eui>
    requires Ready(t.g, t.dist, t.prev, n)
  {
    ChoosePrimary(t.g, t.dist, t.prev, n, if n in cur then cur[n] else None, t.margin)
  }

  lemma TickReady(t: Tick)
    requires t.Valid()
    ensures forall n :: Module(t, n) ==> Ready(t.g, t.dist, t.prev, n)
  {
    hide Graph.Valid, Symmetric, ShortestTree, Ready;
    forall n | Module(t, n) ensures Ready(t.g, t.dist, t.prev, n) {
      TreeEdge(t.g, t.root, t.dist, t.prev, n);
    }
  }

  /** The parents after a tick: every module of the graph chooses, everything else keeps its own. */
  ghost function Next(t: Tick, cur: map<Eui, Option<Eui>>): map<Eui, Option<Eui>>
    requires t.Valid()
  {
    TickReady(t);
    cur + map n | n in t.g && Module(t, n) :: PrimaryUnder(t, cur, n)
  }

  /** The parents a sequence of ticks leaves behind when no module had one at first. */
  ghost function After(ts: seq<Tick>): map<Eui, Option<Eui>>
    requires forall t | t in ts :: t.Valid()
  {
    if ts == [] then map[] else Next(ts[|ts| - 1], After(ts[..|ts| - 1]))
  }

  /** A neighbour-table entry within its fields on the wire. */
  predicate OnWire(nb: Neighbor) {
    -128 <= nb.rssi <= 127 && 0 <= nb.rangeCm <= 65535 && 0 <= nb.linkQuality <= 255
  }

  ghost predicate Receivable(views: seq<View>) {
    WellFormed(views) && forall v, b :: v in views && b in v.links.info ==> OnWire(v.links.info[b])
  }

  /** A tick over what modules can have reported. */
  ghost predicate Received(t: Tick) {
    t.Valid() && exists views :: Receivable(views) && t.g == GraphOf(views, t.root)
  }

  /** Ticks of one router. */
  ghost predicate Past(ts: seq<Tick>, root: Eui, margin: real) {
    (forall t | t in ts :: t.Valid()) && forall t | t in ts :: Received(t) && t.root == root && t.margin == margin
  }

  /** An identifier that fits the eight bytes of a report, other than the one that stands for none. */
  predicate Addressable(n: Eui) {
    0 < n < 0x1_0000_0000_0000_0000
  }

  /** Every node of these ticks has such an identifier. */
  ghost predicate Addressed(ts: seq<Tick>) {
    forall t, n :: t in ts && n in t.g ==> Addressable(n)
  }

  /** The smallest positive margin for which eight bytes are enough: 2^-60. */
  const LEAST_MARGIN: real := 1.0 / 1152921504606846976.0

  /** A tick of modules with eight-byte identifiers, under a margin that is none or not absurdly small. */
  ghost predicate OnAir(t: Tick) {
    && Addressable(t.root) && (forall n :: n in t.g ==> Addressable(n))
    && (t.margin == 0.0 || t.margin >= LEAST_MARGIN)
  }

  // ---------------------------------------------------------------- exactly when loops are impossible

  /** From primary to primary and back: what `t` makes of the parents `cur`. */
  ghost predicate Cycle(t: Tick, cur: map<Eui, Option<Eui>>, p: seq<Eui>) {
    && |p| >= 2 && p[0] == p[|p| - 1]
    && (forall k :: 0 <= k < |p| - 1 ==> PointsTo(t, cur, p[k], p[k + 1]))
  }

  ghost predicate PointsTo(t: Tick, cur: map<Eui, Option<Eui>>, n: Eui, x: Eui) {
    Module(t, n) && Ready(t.g, t.dist, t.prev, n) && PrimaryUnder(t, cur, n) == Some(x)
  }

  /** After some history of ticks from no parents, the tick `t` leaves a loop; `air` asks for a history of
      modules with eight-byte identifiers. */
  ghost predicate CanLoop(t: Tick, air: bool) {
    exists ts, p :: Past(ts, t.root, t.margin) && (air ==> Addressed(ts)) && Cycle(t, After(ts), p)
  }

  /** An edge between two nodes that the margin can keep although it leads no closer. */
  ghost predicate Uphill(t: Tick, a: Eui, b: Eui) {
    && a != b && Edge(t.g, a, b) && Module(t, a) && a in t.dist && b in t.dist && t.dist[a].Fin? && t.dist[b].Fin?
    && t.dist[a].cost <= t.dist[b].cost && t.dist[a].cost >= Scaled(t.dist[b].cost + W(t.g, a, b), t.margin)
  }

  ghost predicate NoUphill(t: Tick) {
    forall a, b :: !Uphill(t, a, b)
  }

  /** No node is its own parent. */
  ghost predicate NoneOwn(cur: map<Eui, Option<Eui>>) {
    forall n :: n in cur ==> cur[n] != Some(n)
  }

  lemma PrimaryNotOwn(t: Tick, cur: map<Eui, Option<Eui>>, n: Eui)
    requires t.Valid() && NoneOwn(cur) && Module(t, n) && Ready(t.g, t.dist, t.prev, n)
    ensures PrimaryUnder(t, cur, n) != Some(n)
  {
    hide Graph.Valid, Symmetric, ShortestTree, Ready, Scaled;
    TreeEdge(t.g, t.root, t.dist, t.prev, n);
    PrevNotOwn(t, n);
  }

  lemma PrevNotOwn(t: Tick, n: Eui)
    requires t.Valid() && Module(t, n)
    ensures n in t.prev && t.prev[n] != Some(n)
  {
    hide Graph.Valid, Symmetric, IsDistance;
    EdgesPositive(t);
    assert Points(t.g, t.root, t.dist, t.prev, n);
  }

  lemma EdgesPositive(t: Tick)
    requires t.Valid()
    ensures forall a, b :: Edge(t.g, a, b) ==> W(t.g, a, b) > 0.0
  {
    hide Symmetric, ShortestTree;
  }

  lemma NextNoneOwn(t: Tick, cur: map<Eui, Option<Eui>>)
    requires t.Valid() && NoneOwn(cur)
    ensures NoneOwn(Next(t, cur))
  {
    hide Tick.Valid, Ready, PrimaryUnder;
    TickReady(t);
    forall n | n in Next(t, cur) ensures Next(t, cur)[n] != Some(n) {
      if Module(t, n) { PrimaryNotOwn(t, cur, n); }
    }
  }

  lemma {:induction false} HistoryNoneOwn(ts: seq<Tick>)
    requires forall t | t in ts :: t.Valid()
    ensures NoneOwn(After(ts))
  {
    hide Tick.Valid, Next, NoneOwn;
    if ts == [] {
      NobodyOwn();
    } else {
      HistoryNoneOwn(ts[..|ts| - 1]);
      NextNoneOwn(ts[|ts| - 1], After(ts[..|ts| - 1]));
    }
  }

  lemma NobodyOwn()
    ensures NoneOwn(map[])
  {
  }

  lemma PointsDown(t: Tick, cur: map<Eui, Option<Eui>>, n: Eui, x: Eui)
    requires t.Valid() && NoUphill(t) && NoneOwn(cur) && PointsTo(t, cur, n, x)
    ensures n in t.dist && t.dist[n].Fin? && x in t.dist && t.dist[x].Fin? && t.dist[x].cost < t.dist[n].cost
  {
    hide Tick.Valid, Scaled, W, Ready, ChoosePrimary, NoneOwn;
    PrimaryNotOwn(t, cur, n);
    assert Picked(t, n, Some(x));
    PickedFacts(t, n, Some(x));
    TickFacts(t);
    assert !Uphill(t, n, x);
  }

  lemma {:induction false} CycleDescends(t: Tick, cur: map<Eui, Option<Eui>>, p: seq<Eui>, j: nat)
    requires t.Valid() && NoUphill(t) && NoneOwn(cur) && Cycle(t, cur, p) && 0 < j < |p|
    ensures p[0] in t.dist && t.dist[p[0]].Fin? && p[j] in t.dist && t.dist[p[j]].Fin?
    ensures t.dist[p[j]].cost < t.dist[p[0]].cost
  {
    hide Tick.Valid, NoUphill, PointsTo, NoneOwn;
    assert PointsTo(t, cur, p[j - 1], p[j]);
    PointsDown(t, cur, p[j - 1], p[j]);
    if j > 1 {
      CycleDescends(t, cur, p, j - 1);
    }
  }

  lemma NoCycle(t: Tick, ts: seq<Tick>, p: seq<Eui>)
    requires t.Valid() && NoUphill(t) && Past(ts, t.root, t.margin)
    ensures !Cycle(t, After(ts), p)
  {
    hide Tick.Valid, NoUphill, PointsTo, NoneOwn, After;
    HistoryNoneOwn(ts);
    if Cycle(t, After(ts), p) {
      CycleDescends(t, After(ts), p, |p| - 1);
    }
  }

  lemma ScaledMonotone(x: real, y: real, margin: real)
    requires margin < 1.0 && x <= y
    ensures Scaled(x, margin) <= Scaled(y, margin)
  {
    Monotone(1.0 - margin, x, y);
  }

  /** A parent within the margin is kept. */
  lemma KeepsCurrent(t: Tick, n: Eui, c: Eui)
    requires t.Valid() && Module(t, n) && Edge(t.g, n, c)
    requires n in t.dist && c in t.dist && t.dist[n].Fin? && t.dist[c].Fin?
    requires t.dist[n].cost >= Scaled(t.dist[c].cost + W(t.g, n, c), t.margin)
    ensures Ready(t.g, t.dist, t.prev, n) && ChoosePrimary(t.g, t.dist, t.prev, n, Some(c), t.margin) == Some(c)
  {
    hide Graph.Valid, Symmetric, ShortestTree, Scaled;
    TreeEdge(t.g, t.root, t.dist, t.prev, n);
  }

  /** Two parents of each other across such an edge stay what they are. */
  lemma UphillKept(t: Tick, a: Eui, b: Eui, cur: map<Eui, Option<Eui>>)
    requires t.Valid() && Uphill(t, a, b) && a in cur && b in cur && cur[a] == Some(b) && cur[b] == Some(a)
    ensures Cycle(t, cur, [a, b, a])
  {
    hide Tick.Valid, Scaled, Ready, ChoosePrimary, W;
    TickFacts(t);
    EdgePositive(t, a, b);
    Away(t, a);
    KeepsCurrent(t, a, b);
    ScaledMonotone(t.dist[a].cost + W(t.g, a, b), t.dist[b].cost + W(t.g, a, b), t.margin);
    KeepsCurrent(t, b, a);
  }

  lemma Away(t: Tick, n: Eui)
    requires t.Valid() && Module(t, n) && n in t.dist && t.dist[n].Fin?
    ensures t.dist[n].cost > 0.0
  {
    hide Graph.Valid, Symmetric, ShortestTree, Ready;
    TreeEdge(t.g, t.root, t.dist, t.prev, n);
  }

  // ---------------------------------------------------------------- modules in a line

  /** A perfect link: it costs one. */
  const GOOD := Neighbor(-50, 0, 255)

  /** Every module of the line reports the one before it, over a perfect link. */
  function LineViews(s: seq<Eui>): seq<View>
    requires |s| > 0
  {
    seq(|s| - 1, i requires 0 <= i < |s| - 1 => View(s[i + 1], Table([s[i]], map[s[i] := GOOD])))
  }

  /** `x` comes right after `y` in the line. */
  ghost predicate Follows(s: seq<Eui>, x: Eui, y: Eui) {
    exists i :: 0 <= i < |s| - 1 && s[i + 1] == x && s[i] == y
  }

  lemma LineReceivable(s: seq<Eui>)
    requires |s| > 0 && Distinct(s)
    ensures Receivable(LineViews(s)) && Nodes(LineViews(s), s[0]) == set x | x in s
  {
    var views := LineViews(s);
    forall x | x in s ensures x in Nodes(views, s[0]) {
      var i :| 0 <= i < |s| && s[i] == x;
      if i > 0 { assert views[i - 1].eui == x && views[i - 1] in views; }
    }
  }

  lemma LineSays(s: seq<Eui>, x: Eui, y: Eui, c: real)
    requires |s| > 0 && Distinct(s)
    ensures Says(LineViews(s), Nodes(LineViews(s), s[0]), x, y, c) <==> (Follows(s, x, y) && c == 1.0)
  {
    var views := LineViews(s);
    LineReceivable(s);
    if Follows(s, x, y) {
      var i :| 0 <= i < |s| - 1 && s[i + 1] == x && s[i] == y;
      assert views[i] in views;
    }
  }

  lemma LineTold(s: seq<Eui>, x: Eui, y: Eui)
    requires |s| > 0 && Distinct(s)
    ensures Told(LineViews(s), Nodes(LineViews(s), s[0]), x, y, if Follows(s, x, y) then Some(1.0) else None)
  {
    hide Says, Follows, Distinct, LineViews, Nodes;
    forall c: real ensures Says(LineViews(s), Nodes(LineViews(s), s[0]), x, y, c) <==> (Follows(s, x, y) && c == 1.0) {
      LineSays(s, x, y, c);
    }
  }

  lemma EntryFrom(views: seq<View>, root: Eui, x: Eui, y: Eui, there: Option<real>, back: Option<real>)
    requires WellFormed(views) && Told(views, Nodes(views, root), x, y, there)
    requires Told(views, Nodes(views, root), y, x, back)
    ensures Entry(GraphOf(views, root), x, y)
            == if back.None? then there else if there.None? then back else Some((there.value + back.value) / 2.0)
  {
    hide Says, GraphOf, Nodes, WellFormed, Entry, Told;
    var t, b := EdgeMeaning(views, root, x, y);
    ToldSame(views, Nodes(views, root), x, y, t, there);
    ToldSame(views, Nodes(views, root), y, x, b, back);
  }

  /** The links of the line, and no others, are its edges; each costs one. */
  lemma LineEdges(s: seq<Eui>, x: Eui, y: Eui)
    requires |s| > 0 && Distinct(s)
    ensures WellFormed(LineViews(s))
    ensures Edge(GraphOf(LineViews(s), s[0]), x, y) <==> Follows(s, x, y) || Follows(s, y, x)
    ensures Edge(GraphOf(LineViews(s), s[0]), x, y) ==> W(GraphOf(LineViews(s), s[0]), x, y) == 1.0
  {
    hide GraphOf, LineViews, Distinct, WellFormed, Edge, W, Nodes, Says, Told;
    LineReceivable(s);
    LineTold(s, x, y);
    LineTold(s, y, x);
    EntryFrom(LineViews(s), s[0], x, y, if Follows(s, x, y) then Some(1.0) else None,
              if Follows(s, y, x) then Some(1.0) else None);
  }

  function Index(s: seq<Eui>, x: Eui): (i: nat)
    requires x in s
    ensures i < |s| && s[i] == x
  {
    if s[0] == x then 0 else 1 + Index(s[1..], x)
  }

  lemma IndexIs(s: seq<Eui>, k: nat)
    requires Distinct(s) && k < |s|
    ensures Index(s, s[k]) == k
  {
  }

  /** Neighbours in the line stand next to each other. */
  lemma LineNeighbors(s: seq<Eui>, x: Eui, y: Eui)
    requires |s| > 0 && Distinct(s) && WellFormed(LineViews(s)) && Edge(GraphOf(LineViews(s), s[0]), x, y)
    ensures x in s && y in s && (Index(s, x) == Index(s, y) + 1 || Index(s, y) == Index(s, x) + 1)
    ensures W(GraphOf(LineViews(s), s[0]), x, y) == 1.0
  {
    hide GraphOf, LineViews, WellFormed, Edge, W, Index, Distinct;
    LineEdges(s, x, y);
    if Follows(s, x, y) {
      FollowsIndex(s, x, y);
    } else {
      FollowsIndex(s, y, x);
    }
  }

  lemma FollowsIndex(s: seq<Eui>, x: Eui, y: Eui)
    requires Distinct(s) && Follows(s, x, y)
    ensures x in s && y in s && Index(s, x) == Index(s, y) + 1
  {
    hide Index, Distinct;
    var i :| 0 <= i < |s| - 1 && s[i + 1] == x && s[i] == y;
    IndexIs(s, i);
    IndexIs(s, i + 1);
  }

  /** The tick over the line: a node's distance is its place, its next hop the node before. */
  ghost function LineTick(s: seq<Eui>, margin: real): Tick
    requires |s| > 0 && Distinct(s)
  {
    LineReceivable(s);
    Tick(GraphOf(LineViews(s), s[0]), s[0], map x | x in s :: Fin(Index(s, x) as real),
         map x | x in s :: if x == s[0] then None else Some(s[Index(s, x) - 1]), margin)
  }

  lemma LineNodes(s: seq<Eui>)
    requires |s| > 0 && Distinct(s)
    ensures WellFormed(LineViews(s)) && GraphOf(LineViews(s), s[0]).Keys == set x | x in s
    ensures Graph.Valid(GraphOf(LineViews(s), s[0])) && Symmetric(GraphOf(LineViews(s), s[0]))
  {
    hide GraphOf, LineViews, WellFormed, Nodes, Distinct, Graph.Valid, Symmetric;
    LineReceivable(s);
    GraphSound(LineViews(s), s[0]);
  }

  /** No walk along the line is shorter than the place it leads to. */
  lemma {:induction false} LineWalkLonger(s: seq<Eui>, p: seq<Eui>, x: Eui)
    requires |s| > 0 && Distinct(s) && WellFormed(LineViews(s)) && IsWalk(GraphOf(LineViews(s), s[0]), p, s[0], x)
    ensures x in s && Index(s, x) as real <= WalkCost(GraphOf(LineViews(s), s[0]), p)
    decreases |p|
  {
    hide GraphOf, LineViews, WellFormed, Edge, W, Index, Distinct;
    if |p| == 1 {
      IndexIs(s, 0);
    } else {
      var q, y := p[..|p| - 1], p[|p| - 2];
      assert IsWalk(GraphOf(LineViews(s), s[0]), q, s[0], y);
      LineWalkLonger(s, q, y);
      LineNeighbors(s, y, x);
    }
  }

  /** The first `k + 1` nodes are a walk that costs `k`. */
  lemma {:induction false} LineWalk(s: seq<Eui>, k: nat)
    requires |s| > 0 && Distinct(s) && k < |s|
    ensures WellFormed(LineViews(s)) && IsWalk(GraphOf(LineViews(s), s[0]), s[..k + 1], s[0], s[k])
    ensures WalkCost(GraphOf(LineViews(s), s[0]), s[..k + 1]) == k as real
  {
    hide GraphOf, LineViews, WellFormed, Edge, W, Distinct, WalkCost, Follows;
    LineNodes(s);
    if k == 0 {
      WalkStarts(GraphOf(LineViews(s), s[0]), s);
    } else {
      LineWalk(s, k - 1);
      FollowsAt(s, k);
      LineEdges(s, s[k - 1], s[k]);
      WalkExtends(GraphOf(LineViews(s), s[0]), s[..k], s[0], s[k - 1], s[k]);
      assert s[..k + 1] == s[..k] + [s[k]];
    }
  }

  lemma FollowsAt(s: seq<Eui>, k: nat)
    requires 0 < k < |s|
    ensures Follows(s, s[k], s[k - 1])
  {
  }

  lemma WalkStarts(g: Adj, s: seq<Eui>)
    requires |s| > 0 && s[0] in g
    ensures IsWalk(g, s[..1], s[0], s[0]) && WalkCost(g, s[..1]) == 0.0
  {
  }

  lemma LineDistance(s: seq<Eui>, x: Eui)
    requires |s| > 0 && Distinct(s) && x in s && WellFormed(LineViews(s))
    ensures IsDistance(GraphOf(LineViews(s), s[0]), s[0], x, Fin(Index(s, x) as real))
  {
    hide GraphOf, LineViews, WellFormed, Edge, W, WalkCost, Index, Distinct;
    LineWalk(s, Index(s, x));
    forall p | IsWalk(GraphOf(LineViews(s), s[0]), p, s[0], x)
      ensures Index(s, x) as real <= WalkCost(GraphOf(LineViews(s), s[0]), p)
    {
      LineWalkLonger(s, p, x);
    }
  }

  lemma LinePoints(s: seq<Eui>, margin: real, x: Eui)
    requires |s| > 0 && Distinct(s) && x in s
    ensures var t := LineTick(s, margin); Points(t.g, t.root, t.dist, t.prev, x)
  {
    hide GraphOf, LineViews, WellFormed, Edge, W, Index, Distinct;
    var i := Index(s, x);
    IndexIs(s, 0);
    if x != s[0] {
      IndexIs(s, i - 1);
      LineEdges(s, s[i - 1], s[i]);
    }
  }

  /** The tick over a line is one the router can make. */
  lemma LineReceived(s: seq<Eui>, margin: real)
    requires |s| > 0 && Distinct(s) && 0.0 <= margin < 1.0
    ensures Received(LineTick(s, margin))
  {
    hide GraphOf, LineViews, WellFormed, Graph.Valid, Symmetric, IsDistance, Points, Index, Distinct;
    var t := LineTick(s, margin);
    LineReceivable(s);
    LineNodes(s);
    forall x | x in s ensures IsDistance(t.g, t.root, x, t.dist[x]) && Points(t.g, t.root, t.dist, t.prev, x) {
      LineDistance(s, x);
      LinePoints(s, margin, x);
    }
  }

  // ---------------------------------------------------------------- what becomes of the parents in a line

  lemma LineAt(s: seq<Eui>, margin: real, k: nat)
    requires |s| > 0 && Distinct(s) && 0.0 <= margin < 1.0 && 0 < k < |s|
    ensures var t := LineTick(s, margin);
            && t.Valid() && Module(t, s[k]) && Ready(t.g, t.dist, t.prev, s[k]) && t.prev[s[k]] == Some(s[k - 1])
            && s[k] in t.dist && t.dist[s[k]] == Fin(k as real)
    ensures var t := LineTick(s, margin);
            && (forall j: nat | j < |s| :: Edge(t.g, s[k], s[j]) ==> j == k - 1 || j == k + 1)
            && (forall j: nat | j < |s| && (j == k - 1 || j == k + 1) ::
                  Edge(t.g, s[k], s[j]) && W(t.g, s[k], s[j]) == 1.0)
  {
    hide GraphOf, LineViews, WellFormed, Tick.Valid, Ready, Index, Edge, W, Graph.Valid, Symmetric;
    var t := LineTick(s, margin);
    LineReceived(s, margin);
    LineNodes(s);
    IndexIs(s, k);
    TickReady(t);
    forall j: nat | j < |s| && Edge(t.g, s[k], s[j]) ensures j == k - 1 || j == k + 1 {
      LineNeighbors(s, s[k], s[j]);
      IndexIs(s, j);
    }
    forall j: nat | j < |s| && (j == k - 1 || j == k + 1) ensures Edge(t.g, s[k], s[j]) && W(t.g, s[k], s[j]) == 1.0 {
      LineEdges(s, s[k], s[j]);
    }
  }

  /** A node whose parent is out of reach, or that has none, takes the node before it. */
  lemma LineFresh(s: seq<Eui>, margin: real, cur: map<Eui, Option<Eui>>, k: nat, j: nat)
    requires |s| > 0 && Distinct(s) && 0.0 <= margin < 1.0 && 0 < k < |s| && j < |s| && j != k - 1 && j != k + 1
    requires s[k] in cur ==> cur[s[k]] == Some(s[j])
    ensures var t := LineTick(s, margin);
            Ready(t.g, t.dist, t.prev, s[k]) && PrimaryUnder(t, cur, s[k]) == Some(s[k - 1])
  {
    hide LineTick, Distinct, Tick.Valid, Edge, Ready, Scaled;
    LineAt(s, margin, k);
  }

  /** Far out, a node keeps the node after it. */
  lemma LineKeeps(s: seq<Eui>, margin: real, cur: map<Eui, Option<Eui>>, k: nat)
    requires |s| > 0 && Distinct(s) && 0.0 <= margin < 1.0 && 0 < k < |s| - 1
    requires k as real >= Scaled(k as real + 2.0, margin)
    requires s[k] in cur && cur[s[k]] == Some(s[k + 1])
    ensures var t := LineTick(s, margin);
            Ready(t.g, t.dist, t.prev, s[k]) && PrimaryUnder(t, cur, s[k]) == Some(s[k + 1])
  {
    hide LineTick, Distinct, Tick.Valid, Edge, Ready, ChoosePrimary, Scaled;
    LineAt(s, margin, k);
    LineAt(s, margin, k + 1);
    LineRoot(s, margin);
    assert k as real + 2.0 == (k + 1) as real + 1.0;
    KeepsCurrent(LineTick(s, margin), s[k], s[k + 1]);
  }

  lemma NextAt(t: Tick, cur: map<Eui, Option<Eui>>, n: Eui)
    requires t.Valid() && Module(t, n)
    ensures Ready(t.g, t.dist, t.prev, n) && n in Next(t, cur) && Next(t, cur)[n] == PrimaryUnder(t, cur, n)
  {
    hide Tick.Valid, Ready, PrimaryUnder;
    TickReady(t);
  }

  lemma AfterTwo(t1: Tick, t2: Tick)
    requires t1.Valid() && t2.Valid()
    ensures After([t1, t2]) == Next(t2, Next(t1, map[]))
  {
    hide Tick.Valid, Next;
    assert [t1, t2][..1] == [t1] && [t1][..0] == [];
    assert After([t1]) == Next(t1, map[]);
  }

  /** Any two modules can become each other's parent: first `a` hangs on `b`, then `b` is heard
      only by `a`, far out. */
  lemma MeetUp(root: Eui, a: Eui, b: Eui, margin: real) returns (ts: seq<Tick>)
    requires root != a && root != b && a != b && 0.0 < margin < 1.0
    ensures Past(ts, root, margin)
    ensures Addressable(root) && Addressable(a) && Addressable(b) && margin >= LEAST_MARGIN ==> Addressed(ts)
    ensures a in After(ts) && b in After(ts) && After(ts)[a] == Some(b) && After(ts)[b] == Some(a)
  {
    hide LineTick, Distinct, Tick.Valid, Ready, PrimaryUnder, Received, Next, After, Module, Addressable;
    var near := [root, b, a];
    NearLine(near, root, a, b);
    var far := FarLine(root, a, b, margin);
    var k := |far| - 2;
    var t1, t2 := LineTick(near, margin), LineTick(far, margin);
    LineReceived(near, margin);
    LineReceived(far, margin);
    LineAt(near, margin, 1);
    LineAt(near, margin, 2);
    LineAt(far, margin, k);
    LineAt(far, margin, k + 1);
    var cur := Next(t1, map[]);
    LineFresh(near, margin, map[], 1, 1);
    LineFresh(near, margin, map[], 2, 2);
    NextAt(t1, map[], a);
    NextAt(t1, map[], b);
    LineKeeps(far, margin, cur, k);
    LineFresh(far, margin, cur, k + 1, 0);
    NextAt(t2, cur, a);
    NextAt(t2, cur, b);
    ts := [t1, t2];
    AfterTwo(t1, t2);
    LineRoot(near, margin);
    LineRoot(far, margin);
    ValidTick(t1);
    ValidTick(t2);
    LineTickNodes(near, margin);
    LineTickNodes(far, margin);
  }

  lemma LineTickNodes(s: seq<Eui>, margin: real)
    requires |s| > 0 && Distinct(s)
    ensures LineTick(s, margin).g.Keys == set x | x in s
  {
    hide GraphOf, LineViews;
    LineNodes(s);
  }

  lemma ValidTick(t: Tick)
    requires Received(t)
    ensures t.Valid()
  {
  }

  lemma LineRoot(s: seq<Eui>, margin: real)
    requires |s| > 0 && Distinct(s)
    ensures LineTick(s, margin).root == s[0] && LineTick(s, margin).margin == margin
  {
  }

  lemma NearLine(s: seq<Eui>, root: Eui, a: Eui, b: Eui)
    requires root != a && root != b && a != b && s == [root, b, a]
    ensures Distinct(s)
  {
  }

  /** A quarter of all identifiers. */
  const BLOCK := 0x4000_0000_0000_0000

  predicate InBlock(k: nat, x: Eui) {
    k * BLOCK <= x < (k + 1) * BLOCK
  }

  /** One quarter that none of three identifiers lies in. */
  function FreeBlock(x: Eui, y: Eui, z: Eui): (k: nat)
    ensures k < 4 && !InBlock(k, x) && !InBlock(k, y) && !InBlock(k, z)
  {
    if !InBlock(0, x) && !InBlock(0, y) && !InBlock(0, z) then 0
    else if !InBlock(1, x) && !InBlock(1, y) && !InBlock(1, z) then 1
    else if !InBlock(2, x) && !InBlock(2, y) && !InBlock(2, z) then 2
    else 3
  }

  /** Where `j` fresh identifiers can be had: within eight bytes if there is room. */
  function FreshFrom(x: Eui, y: Eui, z: Eui, j: nat): (base: Eui)
    ensures !(base < x <= base + j) && !(base < y <= base + j) && !(base < z <= base + j)
    ensures j < BLOCK ==> 0 <= base && base + j < 0x1_0000_0000_0000_0000
  {
    if j < BLOCK then FreeBlock(x, y, z) * BLOCK
    else if x < y then (if y < z then z else y) else (if x < z then z else x)
  }

  /** A line so long that its last edge is within the margin both ways. */
  lemma FarLine(root: Eui, a: Eui, b: Eui, margin: real) returns (s: seq<Eui>)
    requires root != a && root != b && a != b && 0.0 < margin < 1.0
    ensures Distinct(s) && |s| >= 4 && s[0] == root && s[|s| - 2] == a && s[|s| - 1] == b
    ensures var k := |s| - 2; k as real >= Scaled(k as real + 2.0, margin)
    ensures Addressable(root) && Addressable(a) && Addressable(b) && margin >= LEAST_MARGIN ==>
              forall x :: x in s ==> Addressable(x)
  {
    hide FreshFrom;
    var j: nat := (2.0 / margin).Floor + 1;
    var base := FreshFrom(root, a, b, j);
    s := [root] + seq(j, i => base + 1 + i) + [a, b];
    FarEnough(j as real + 1.0, margin);
    if margin >= LEAST_MARGIN { FewEnough(margin, j); }
  }

  lemma FewEnough(margin: real, j: nat)
    requires margin >= LEAST_MARGIN && j == (2.0 / margin).Floor + 1
    ensures j < BLOCK
  {
    var x := 2.0 / margin;
    assert x * margin == 2.0;
    if x > 2.0 * 1152921504606846976.0 {
      TooMany(x, margin);
    }
  }

  lemma TooMany(x: real, margin: real)
    requires margin >= LEAST_MARGIN && x > 2.0 * 1152921504606846976.0
    ensures x * margin > 2.0
  {
    Monotone(x, LEAST_MARGIN, margin);
    assert x * LEAST_MARGIN > 2.0;
  }

  lemma FarEnough(k: real, margin: real)
    requires margin > 0.0 && k >= 2.0 / margin
    ensures k >= Scaled(k + 2.0, margin)
  {
    assert k * margin >= 2.0;
  }

  lemma UphillMargin(t: Tick, a: Eui, b: Eui)
    requires t.Valid() && Uphill(t, a, b)
    ensures t.margin > 0.0 && Module(t, b)
  {
    hide Graph.Valid, Symmetric, ShortestTree;
    Away(t, a);
    TickFacts(t);
    EdgePositive(t, a, b);
  }

  /** After some history of ticks the primaries of a tick loop if and only if the margin can keep a
      parent that is no closer than its child. Identifiers of eight bytes are enough for that where the
      tick itself has no others. */
  lemma LoopFreeIff(t: Tick, air: bool)
    requires t.Valid() && (air ==> OnAir(t))
    ensures CanLoop(t, air) <==> !NoUphill(t)
  {
    hide Tick.Valid, Cycle, Uphill, After, Received, Addressed;
    if NoUphill(t) {
      forall ts, p | Past(ts, t.root, t.margin) ensures !Cycle(t, After(ts), p) {
        NoCycle(t, ts, p);
      }
    } else {
      var a, b :| Uphill(t, a, b);
      var ts := UphillLoops(t, a, b);
    }
  }

  /** Any edge that breaks the bound does so after two ticks. */
  lemma UphillLoops(t: Tick, a: Eui, b: Eui) returns (ts: seq<Tick>)
    requires t.Valid() && Uphill(t, a, b)
    ensures Past(ts, t.root, t.margin) && Cycle(t, After(ts), [a, b, a]) && (OnAir(t) ==> Addressed(ts))
  {
    hide Tick.Valid, Cycle, After, Received, Scaled, W, Addressed, Addressable;
    UphillMargin(t, a, b);
    TickFacts(t);
    ts := MeetUp(t.root, a, b, t.margin);
    UphillKept(t, a, b, After(ts));
  }

  // ---------------------------------------------------------------- primaries and secondaries mixed

  lemma NextChosen(t: Tick, cur: map<Eui, Option<Eui>>)
    requires t.Valid()
    ensures Chosen(t, Next(t, cur))
  {
    hide Tick.Valid, Ready, Next, ChoosePrimary;
    TickReady(t);
    forall n | Module(t, n) ensures n in Next(t, cur) && Picked(t, n, Next(t, cur)[n]) {
      NextAt(t, cur, n);
    }
  }

  /** Where the margin keeps nothing uphill every history's primaries lead strictly closer. */
  lemma NextDown(t: Tick, ts: seq<Tick>)
    requires t.Valid() && NoUphill(t) && Past(ts, t.root, t.margin)
    ensures AllDown(t, Next(t, After(ts)))
  {
    hide Tick.Valid, Ready, Next, After, NoUphill, NoneOwn, PrimaryUnder, Received;
    HistoryNoneOwn(ts);
    TickReady(t);
    TickFacts(t);
    forall n | Module(t, n) && n in Next(t, After(ts)) && Next(t, After(ts))[n].Some?
      ensures Closer(t, n, Next(t, After(ts))[n].value)
    {
      NextAt(t, After(ts), n);
      PointsDown(t, After(ts), n, Next(t, After(ts))[n].value);
    }
  }

  /** After some history of ticks a packet can go from hop to hop, primary or secondary, and meet a node twice. */
  ghost predicate CanStray(t: Tick, air: bool)
    requires t.Valid()
  {
    exists ts, sec, p :: Past(ts, t.root, t.margin) && (air ==> Addressed(ts)) && Strays(t, Next(t, After(ts)), sec, p)
  }

  ghost predicate Strays(t: Tick, prim: map<Eui, Option<Eui>>, sec: map<Eui, Option<Eui>>, p: seq<Eui>) {
    Backed(t, prim, sec) && HopChain(t, prim, sec, p) && !Distinct(p)
  }

  /** The secondaries a tick chooses beside `prim`. */
  ghost function BackupOf(t: Tick, prim: map<Eui, Option<Eui>>): map<Eui, Option<Eui>>
    requires t.Valid() && forall n :: Module(t, n) ==> n in prim
  {
    RowsReady(t);
    map n | n in t.g && Module(t, n) :: ChooseSecondary(t.g, t.dist, n, prim[n])
  }

  lemma RowsReady(t: Tick)
    requires t.Valid()
    ensures forall n :: n in t.g ==> RowReady(t.g, t.dist, n)
  {
    hide IsDistance, Points;
  }

  /** Mixed hops can stray after some history if and only if primaries alone can. */
  lemma MixedHopsIff(t: Tick, air: bool)
    requires t.Valid() && (air ==> OnAir(t))
    ensures CanStray(t, air) <==> !NoUphill(t)
  {
    hide Tick.Valid, Addressed, Uphill, Received, After, Next, Backed, HopChain, AllDown;
    if NoUphill(t) {
      forall ts, sec, p | Past(ts, t.root, t.margin) ensures !Strays(t, Next(t, After(ts)), sec, p) {
        if Backed(t, Next(t, After(ts)), sec) && HopChain(t, Next(t, After(ts)), sec, p) {
          HistoryDelivers(t, ts, sec, p);
        }
      }
    } else {
      var a, b :| Uphill(t, a, b);
      var ts := UphillLoops(t, a, b);
      LoopStrays(t, After(ts), a, b);
    }
  }

  /** Where primaries alone cannot loop, any mixture of hops is delivered after any history. */
  lemma HistoryDelivers(t: Tick, ts: seq<Tick>, sec: map<Eui, Option<Eui>>, p: seq<Eui>)
    requires t.Valid() && NoUphill(t) && Past(ts, t.root, t.margin)
    requires Backed(t, Next(t, After(ts)), sec) && HopChain(t, Next(t, After(ts)), sec, p)
    ensures Distinct(p) && |p| <= |t.g.Keys|
    ensures p[|p| - 1] != t.root ==> GoesOn(t, Next(t, After(ts)), sec, p[|p| - 1])
  {
    hide Tick.Valid, NoUphill, Received, After, Next, Backed, HopChain, AllDown;
    NextDown(t, ts);
    NextChosen(t, After(ts));
    MixedHopsDeliver(t, Next(t, After(ts)), sec, p);
  }

  lemma LoopStrays(t: Tick, cur: map<Eui, Option<Eui>>, a: Eui, b: Eui)
    requires t.Valid() && Uphill(t, a, b) && Cycle(t, cur, [a, b, a])
    ensures exists sec, p :: Strays(t, Next(t, cur), sec, p)
  {
    hide Tick.Valid, Ready, RowReady, PrimaryUnder, ChooseSecondary, W, Scaled;
    TickReady(t);
    RowsReady(t);
    var p := [a, b, a];
    assert PointsTo(t, cur, p[0], p[1]) && PointsTo(t, cur, p[1], p[2]);
    var sec := BackupOf(t, Next(t, cur));
    assert p[0] == p[2];
    assert Strays(t, Next(t, cur), sec, p);
  }

  // ---------------------------------------------------------------- a loop in two ticks

  /** Gateway 3 and modules 1 and 2; module 1 reports the other two, module 2 the gateway. */
  function TriangleViews(n10: Neighbor, n12: Neighbor, n20: Neighbor): seq<View> {
    [View(1, Table([3, 2], map[3 := n10, 2 := n12])), View(2, Table([3], map[3 := n20]))]
  }

  /** What module `x` reports of `y`. */
  function TriangleReport(n10: Neighbor, n12: Neighbor, n20: Neighbor, x: Eui, y: Eui): Option<real> {
    if x == 1 && y == 3 then Some(LinkCost(n10))
    else if x == 1 && y == 2 then Some(LinkCost(n12))
    else if x == 2 && y == 3 then Some(LinkCost(n20))
    else None
  }

  lemma TriangleTold(n10: Neighbor, n12: Neighbor, n20: Neighbor, x: Eui, y: Eui)
    ensures var views := TriangleViews(n10, n12, n20);
            Told(views, Nodes(views, 3), x, y, TriangleReport(n10, n12, n20, x, y))
  {
    hide LinkCost;
    var v1 := View(1, Table([3, 2], map[3 := n10, 2 := n12]));
    var v2 := View(2, Table([3], map[3 := n20]));
    var views := TriangleViews(n10, n12, n20);
    assert v1 in views && v2 in views;
    assert Nodes(views, 3) == {3, 1, 2};
    forall c | Says(views, Nodes(views, 3), x, y, c) ensures TriangleReport(n10, n12, n20, x, y) == Some(c) {
      var v :| v in views && v.eui == x && y in Nodes(views, 3) && y in v.links.info && c == LinkCost(v.links.info[y]);
      assert v == v1 || v == v2;
    }
  }

  lemma TriangleReceivable(n10: Neighbor, n12: Neighbor, n20: Neighbor)
    requires OnWire(n10) && OnWire(n12) && OnWire(n20)
    ensures var views := TriangleViews(n10, n12, n20); Receivable(views) && Nodes(views, 3) == {3, 1, 2}
  {
    hide OnWire;
  }

  /** The three pairwise links, each at the cost of its one report. */
  ghost predicate Triangle(g: Adj, c1: real, c2: real, c12: real) {
    && g.Keys == {3, 1, 2}
    && Entry(g, 3, 1) == Some(c1) == Entry(g, 1, 3) && Entry(g, 3, 2) == Some(c2) == Entry(g, 2, 3)
    && Entry(g, 1, 2) == Some(c12) == Entry(g, 2, 1)
    && Entry(g, 3, 3).None? && Entry(g, 1, 1).None? && Entry(g, 2, 2).None?
  }

  lemma TriangleEntry(n10: Neighbor, n12: Neighbor, n20: Neighbor, x: Eui, y: Eui)
    requires OnWire(n10) && OnWire(n12) && OnWire(n20)
    ensures WellFormed(TriangleViews(n10, n12, n20))
    ensures Entry(GraphOf(TriangleViews(n10, n12, n20), 3), x, y)
            == var there, back := TriangleReport(n10, n12, n20, x, y), TriangleReport(n10, n12, n20, y, x);
               if back.None? then there else if there.None? then back else Some((there.value + back.value) / 2.0)
  {
    hide LinkCost, GraphOf, TriangleViews, TriangleReport, Told, Entry, OnWire;
    TriangleReceivable(n10, n12, n20);
    TriangleTold(n10, n12, n20, x, y);
    TriangleTold(n10, n12, n20, y, x);
    EntryFrom(TriangleViews(n10, n12, n20), 3, x, y, TriangleReport(n10, n12, n20, x, y),
              TriangleReport(n10, n12, n20, y, x));
  }

  lemma TriangleGraph(n10: Neighbor, n12: Neighbor, n20: Neighbor)
    requires OnWire(n10) && OnWire(n12) && OnWire(n20)
    ensures Receivable(TriangleViews(n10, n12, n20))
    ensures Triangle(GraphOf(TriangleViews(n10, n12, n20), 3), LinkCost(n10), LinkCost(n20), LinkCost(n12))
  {
    hide LinkCost, GraphOf, TriangleViews, Entry, OnWire, WellFormed, Nodes;
    TriangleReceivable(n10, n12, n20);
    GraphSound(TriangleViews(n10, n12, n20), 3);
    TriangleEntry(n10, n12, n20, 3, 3);
    TriangleEntry(n10, n12, n20, 3, 1);
    TriangleEntry(n10, n12, n20, 3, 2);
    TriangleEntry(n10, n12, n20, 1, 3);
    TriangleEntry(n10, n12, n20, 1, 1);
    TriangleEntry(n10, n12, n20, 1, 2);
    TriangleEntry(n10, n12, n20, 2, 3);
    TriangleEntry(n10, n12, n20, 2, 1);
    TriangleEntry(n10, n12, n20, 2, 2);
  }

  /** Distances in the triangle. */
  lemma TriangleDistances(t: Tick, c1: real, c2: real, c12: real)
    requires t.Valid() && Triangle(t.g, c1, c2, c12) && t.root == 3 && c1 > 0.0 && c2 > 0.0 && c12 > 0.0
    ensures 3 in t.dist && 1 in t.dist && 2 in t.dist && t.dist[3] == Fin(0.0)
    ensures t.dist[1] == Fin(if c1 <= c2 + c12 then c1 else c2 + c12)
    ensures t.dist[2] == Fin(if c2 <= c1 + c12 then c2 else c1 + c12)
    ensures Module(t, 1) && Module(t, 2) && 1 in t.prev && 2 in t.prev
    ensures c1 > c2 + c12 ==> t.prev[1] == Some(2) && t.prev[2] == Some(3)
    ensures c2 > c1 + c12 ==> t.prev[2] == Some(1) && t.prev[1] == Some(3)
  {
    hide IsDistance, Graph.Valid, Symmetric;
    var g := t.g;
    TickFacts(t);
    Relaxes(g, 3, t.dist, t.prev, 3, 1);
    Relaxes(g, 3, t.dist, t.prev, 3, 2);
    Relaxes(g, 3, t.dist, t.prev, 1, 2);
    Relaxes(g, 3, t.dist, t.prev, 2, 1);
    TreeEdge(g, 3, t.dist, t.prev, 1);
    TreeEdge(g, 3, t.dist, t.prev, 2);
  }

  /** A current parent that survives, and one that does not. */
  lemma PrimaryBranches(t: Tick, n: Eui, c: Eui, u: Eui)
    requires Ready(t.g, t.dist, t.prev, n) && Edge(t.g, n, c) && t.dist[c].Fin? && t.prev[n] == Some(u)
    ensures ChoosePrimary(t.g, t.dist, t.prev, n, None, t.margin) == Some(u)
    ensures ChoosePrimary(t.g, t.dist, t.prev, n, Some(c), t.margin)
            == if t.dist[u].cost + W(t.g, n, u) >= Scaled(t.dist[c].cost + W(t.g, n, c), t.margin) then Some(c)
               else Some(u)
  {
    hide Scaled, W;
  }

  lemma FirstTick(t: Tick)
    requires t.Valid() && Triangle(t.g, 12.0, 2.0, 1.0) && t.root == 3
    ensures Module(t, 1) && Module(t, 2) && Ready(t.g, t.dist, t.prev, 1) && Ready(t.g, t.dist, t.prev, 2)
    ensures PrimaryUnder(t, map[], 1) == Some(2) && PrimaryUnder(t, map[], 2) == Some(3)
  {
    hide Graph.Valid, Symmetric, ShortestTree, ChoosePrimary, Scaled;
    TriangleDistances(t, 12.0, 2.0, 1.0);
    TreeEdge(t.g, t.root, t.dist, t.prev, 1);
    TreeEdge(t.g, t.root, t.dist, t.prev, 2);
    PrimaryBranches(t, 1, 2, 2);
    PrimaryBranches(t, 2, 3, 3);
  }

  lemma SecondTick(t: Tick)
    requires t.Valid() && Triangle(t.g, 12.0, 22.0, 1.0) && t.root == 3 && t.margin == 0.15
    ensures Module(t, 1) && Module(t, 2) && Ready(t.g, t.dist, t.prev, 1) && Ready(t.g, t.dist, t.prev, 2)
    ensures ChoosePrimary(t.g, t.dist, t.prev, 1, Some(2), t.margin) == Some(2)
    ensures ChoosePrimary(t.g, t.dist, t.prev, 2, Some(3), t.margin) == Some(1)
  {
    hide Graph.Valid, Symmetric, ShortestTree, ChoosePrimary;
    TriangleDistances(t, 12.0, 22.0, 1.0);
    TreeEdge(t.g, t.root, t.dist, t.prev, 1);
    TreeEdge(t.g, t.root, t.dist, t.prev, 2);
    PrimaryBranches(t, 1, 2, 3);
    PrimaryBranches(t, 2, 3, 1);
  }

  const FAIR := Neighbor(-60, 0, 255)
  const WEAK := Neighbor(-110, 25000, 255)
  const BAD := Neighbor(-110, 65000, 127)

  lemma ReportCosts()
    ensures LinkCost(GOOD) == 1.0 && LinkCost(FAIR) == 2.0 && LinkCost(WEAK) == 12.0 && LinkCost(BAD) == 22.0
    ensures OnWire(GOOD) && OnWire(FAIR) && OnWire(WEAK) && OnWire(BAD)
  {
  }

  /** With the default margin two ordinary ticks from no parents are enough for a loop: module 2 loses
      its fair link to the gateway, moves to module 1, and module 1 keeps module 2. */
  lemma TwoTicksLoop(t1: Tick, t2: Tick)
    requires t1.Valid() && t1.root == 3 && t1.margin == 0.15 && WellFormed(TriangleViews(WEAK, GOOD, FAIR))
    requires t2.Valid() && t2.root == 3 && t2.margin == 0.15 && WellFormed(TriangleViews(WEAK, GOOD, BAD))
    requires t1.g == GraphOf(TriangleViews(WEAK, GOOD, FAIR), 3) && t2.g == GraphOf(TriangleViews(WEAK, GOOD, BAD), 3)
    ensures Past([t1], 3, 0.15) && Cycle(t2, After([t1]), [1, 2, 1])
  {
    hide Tick.Valid, Triangle, Ready, ChoosePrimary, GraphOf, TriangleViews, LinkCost, OnWire, Next, WellFormed,
         Receivable;
    var good, fair, weak, bad := GOOD, FAIR, WEAK, BAD;
    ReportCosts();
    TriangleGraph(weak, good, fair);
    TriangleGraph(weak, good, bad);
    FirstTick(t1);
    SecondTick(t2);
    NextAt(t1, map[], 1);
    NextAt(t1, map[], 2);
    AfterOne(t1);
  }

  lemma AfterOne(t: Tick)
    requires t.Valid()
    ensures After([t]) == Next(t, map[])
  {
    hide Tick.Valid, Next;
    assert [t][..0] == [];
  }
}
