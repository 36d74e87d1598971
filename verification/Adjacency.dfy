/** The weighted graph the router works on, built from what the online modules report about
    their neighbours (olympus_link/autorouter.py). */
module Adjacency {
  import opened Graph
  import opened Sequences
  import opened Wrappers

  /** A neighbour-table entry, as received on the wire. */
  datatype Neighbor = Neighbor(rssi: int, rangeCm: int, linkQuality: int)

  /** `link_cost`: never below a tenth, and at least one for anything the wire can carry. */
  function LinkCost(nb: Neighbor): (c: real)
    ensures c >= 0.1
    ensures nb.rangeCm >= 0 && nb.linkQuality <= 255 ==> c >= 1.0
  {
    var weak := if -nb.rssi - 50 > 0 then (-nb.rssi - 50) as real else 0.0;
    var cost := 1.0 + weak / 10.0 + (nb.rangeCm as real / 100.0) / 50.0 + (255 - nb.linkQuality) as real / 64.0;
    if cost > 0.1 then cost else 0.1
  }

  /** What a link costs: one for the best there is, one more for every ten decibels below -50, for every
      fifty metres and for every 64 points of quality, each on its own. */
  lemma CostsAddUp(nb: Neighbor, k: nat)
    requires nb.rangeCm >= 0 && nb.linkQuality <= 255
    ensures nb.rssi >= -50 && nb.rangeCm == 0 && nb.linkQuality == 255 ==> LinkCost(nb) == 1.0
    ensures nb.rssi >= -50 ==> LinkCost(nb.(rssi := nb.rssi + k)) == LinkCost(nb)
    ensures nb.rssi <= -50 ==> LinkCost(nb.(rssi := nb.rssi - k)) == LinkCost(nb) + k as real / 10.0
    ensures LinkCost(nb.(rangeCm := nb.rangeCm + k)) == LinkCost(nb) + k as real / 5000.0
    ensures LinkCost(nb.(linkQuality := nb.linkQuality - k)) == LinkCost(nb) + k as real / 64.0
  {
  }

  /** A neighbour table: entries in the order they were first heard. */
  datatype Table = Table(order: seq<Eui>, info: map<Eui, Neighbor>) {
    ghost predicate Valid() {
      && Distinct(order)
      && (forall b :: b in info ==> b in order)
      && (forall i :: 0 <= i < |order| ==> order[i] in info)
    }
  }

  /** What the router sees of an online module. */
  datatype View = View(eui: Eui, links: Table)

  /** Modules come from a dictionary keyed by their EUI. */
  ghost predicate WellFormed(views: seq<View>) {
    && (forall i, j :: 0 <= i < j < |views| ==> views[i].eui != views[j].eui)
    && (forall i :: 0 <= i < |views| ==> views[i].links.Valid())
  }

  function Nodes(views: seq<View>, gateway: Eui): set<Eui> {
    (set v | v in views :: v.eui) + {gateway}
  }

  // ---------------------------------------------------------------- the loops as functions

  function Put(r: Row, b: Eui, c: real): Row {
    Row(if b in r.cost then r.keys else r.keys + [b], r.cost[b := c])
  }

  /** Average with what the other end, if it reported before, made of the link. */
  function Merge(r: Row, b: Eui, c: real): Row {
    Put(r, b, if b in r.cost then (r.cost[b] + c) / 2.0 else c)
  }

  function Join(g: Adj, a: Eui, b: Eui, c: real): (h: Adj)
    requires a in g && b in g
    ensures h.Keys == g.Keys
  {
    var h := g[a := Merge(g[a], b, c)];
    h[b := Merge(h[b], a, c)]
  }

  function Base(nodes: set<Eui>): Adj {
    map n | n in nodes :: Row([], map[])
  }

  /** After the first `j` neighbours of one module. */
  function AfterLinks(g: Adj, v: View, j: nat): (h: Adj)
    requires v.eui in g && j <= |v.links.order|
    requires forall i :: 0 <= i < |v.links.order| ==> v.links.order[i] in v.links.info
    ensures h.Keys == g.Keys
  {
    if j == 0 then g
    else
      var h, b := AfterLinks(g, v, j - 1), v.links.order[j - 1];
      if b !in g then h else Join(h, v.eui, b, LinkCost(v.links.info[b]))
  }

  /** After the first `i` modules. */
  function AfterModules(views: seq<View>, nodes: set<Eui>, i: nat): (h: Adj)
    requires i <= |views| && (forall k :: 0 <= k < |views| ==> views[k].eui in nodes && Listed(views[k]))
    ensures h.Keys == nodes
  {
    if i == 0 then Base(nodes)
    else AfterLinks(AfterModules(views, nodes, i - 1), views[i - 1], |views[i - 1].links.order|)
  }

  predicate Listed(v: View) {
    forall i :: 0 <= i < |v.links.order| ==> v.links.order[i] in v.links.info
  }

  lemma NodesHold(views: seq<View>, gateway: Eui)
    requires WellFormed(views)
    ensures forall k :: 0 <= k < |views| ==> views[k].eui in Nodes(views, gateway) && Listed(views[k])
  {
    forall k | 0 <= k < |views| ensures views[k].eui in Nodes(views, gateway) && Listed(views[k]) {
      assert views[k] in views;
    }
  }

  function GraphOf(views: seq<View>, gateway: Eui): Adj
    requires WellFormed(views)
  {
    NodesHold(views, gateway);
    AfterModules(views, Nodes(views, gateway), |views|)
  }

  /** `_adjacency`. */
  method BuildGraph(views: seq<View>, gateway: Eui) returns (adj: Adj)
    requires WellFormed(views)
    ensures adj == GraphOf(views, gateway)
  {
    hide LinkCost, Merge, WellFormed;
    NodesHold(views, gateway);
    var online := Nodes(views, gateway);
    adj := map n | n in online :: Row([], map[]);
    for i := 0 to |views|
      invariant adj == AfterModules(views, online, i)
    {
      var m := views[i];
      ghost var before := adj;
      for j := 0 to |m.links.order|
        invariant adj == AfterLinks(before, m, j)
      {
        var b := m.links.order[j];
        if b !in online { continue; }
        var c := LinkCost(m.links.info[b]);
        adj := adj[m.eui := Merge(adj[m.eui], b, c)];
        adj := adj[b := Merge(adj[b], m.eui, c)];
      }
    }
  }

  // ---------------------------------------------------------------- what the graph says

  /** The reports gathered: who said what about whom. */
  type Reports = map<(Eui, Eui), real>

  function Lookup(reps: Reports, a: Eui, b: Eui): Option<real> {
    if (a, b) in reps then Some(reps[(a, b)]) else None
  }

  function Mean(known: Option<real>, c: real): real {
    if known.None? then c else (known.value + c) / 2.0
  }

  /** The cost two ends agree on: the mean of what they report, or the word of the only one. */
  function Blend(reps: Reports, a: Eui, b: Eui): Option<real> {
    if Lookup(reps, b, a).None? then Lookup(reps, a, b)
    else if Lookup(reps, a, b).None? then Lookup(reps, b, a)
    else Some((reps[(a, b)] + reps[(b, a)]) / 2.0)
  }

  function Entry(g: Adj, a: Eui, b: Eui): Option<real> {
    if Edge(g, a, b) then Some(W(g, a, b)) else None
  }

  ghost predicate Represents(g: Adj, reps: Reports) {
    && (forall a :: a in g ==> RowValid(g[a]))
    && (forall a, b :: a in g ==> Entry(g, a, b) == Blend(reps, a, b))
  }

  lemma PutValid(r: Row, b: Eui, c: real)
    requires RowValid(r)
    ensures RowValid(Put(r, b, c))
  {
    if b !in r.cost {
      assert b !in r.keys;
    }
  }

  lemma JoinValid(g: Adj, a: Eui, b: Eui, c: real)
    requires a in g && b in g && forall x :: x in g ==> RowValid(g[x])
    ensures forall x :: x in g ==> RowValid(Join(g, a, b, c)[x])
  {
    hide RowValid, Put;
    PutValid(g[a], b, if b in g[a].cost then (g[a].cost[b] + c) / 2.0 else c);
    var g1 := g[a := Merge(g[a], b, c)];
    PutValid(g1[b], a, if a in g1[b].cost then (g1[b].cost[a] + c) / 2.0 else c);
  }

  lemma MergeEntry(g: Adj, a: Eui, b: Eui, c: real, x: Eui, y: Eui)
    requires a in g
    ensures Entry(g[a := Merge(g[a], b, c)], x, y)
            == if x == a && y == b then Some(Mean(Entry(g, a, b), c)) else Entry(g, x, y)
  {
  }

  lemma JoinEntry(g: Adj, a: Eui, b: Eui, c: real, x: Eui, y: Eui)
    requires a in g && b in g && (a == b ==> Entry(g, a, b).None?)
    ensures Entry(Join(g, a, b, c), x, y)
            == if (x == a && y == b) || (x == b && y == a) then Some(Mean(Entry(g, x, y), c)) else Entry(g, x, y)
  {
    hide Entry, Merge;
    var g1 := g[a := Merge(g[a], b, c)];
    MergeEntry(g, a, b, c, x, y);
    MergeEntry(g, a, b, c, b, a);
    MergeEntry(g1, b, a, c, x, y);
  }

  lemma BlendStep(reps: Reports, a: Eui, b: Eui, c: real, x: Eui, y: Eui)
    requires (a, b) !in reps
    ensures Blend(reps[(a, b) := c], x, y)
            == if (x == a && y == b) || (x == b && y == a) then Some(Mean(Blend(reps, x, y), c)) else Blend(reps, x, y)
  {
  }

  /** One report, first of its kind, keeps the graph in step with the reports. */
  lemma JoinStep(g: Adj, reps: Reports, a: Eui, b: Eui, c: real)
    requires Represents(g, reps) && a in g && b in g && (a, b) !in reps
    ensures Represents(Join(g, a, b, c), reps[(a, b) := c])
  {
    hide Join, Entry, Blend, Mean, RowValid;
    var h, next := Join(g, a, b, c), reps[(a, b) := c];
    JoinValid(g, a, b, c);
    SelfBlend(reps, a, b);
    forall x, y | x in h ensures Entry(h, x, y) == Blend(next, x, y) {
      assert Entry(g, x, y) == Blend(reps, x, y) && Entry(g, a, b) == Blend(reps, a, b);
      JoinEntry(g, a, b, c, x, y);
      BlendStep(reps, a, b, c, x, y);
    }
  }

  lemma SelfBlend(reps: Reports, a: Eui, b: Eui)
    requires (a, b) !in reps
    ensures a == b ==> Blend(reps, a, b).None?
  {
  }

  // ---------------------------------------------------------------- the whole run

  function ReportsOfLinks(reps: Reports, nodes: set<Eui>, v: View, j: nat): Reports
    requires j <= |v.links.order| && Listed(v)
  {
    if j == 0 then reps
    else
      var r, b := ReportsOfLinks(reps, nodes, v, j - 1), v.links.order[j - 1];
      if b !in nodes then r else r[(v.eui, b) := LinkCost(v.links.info[b])]
  }

  function ReportsOf(views: seq<View>, nodes: set<Eui>, i: nat): Reports
    requires i <= |views| && forall k :: 0 <= k < |views| ==> Listed(views[k])
  {
    if i == 0 then map[]
    else ReportsOfLinks(ReportsOf(views, nodes, i - 1), nodes, views[i - 1], |views[i - 1].links.order|)
  }

  /** What has been reported after `j` neighbours of `v`. */
  lemma {:induction false} LinksReported(reps: Reports, nodes: set<Eui>, v: View, j: nat, a: Eui, b: Eui)
    requires j <= |v.links.order| && Listed(v)
    ensures Lookup(ReportsOfLinks(reps, nodes, v, j), a, b)
            == if a == v.eui && b in nodes && b in v.links.order[..j] then Some(LinkCost(v.links.info[b]))
               else Lookup(reps, a, b)
  {
    hide LinkCost;
    if j > 0 {
      LinksReported(reps, nodes, v, j - 1, a, b);
      assert v.links.order[..j] == v.links.order[..j - 1] + [v.links.order[j - 1]];
    }
  }

  /** `c` is what the module `a` reports about the online node `b`. */
  ghost predicate Says(views: seq<View>, nodes: set<Eui>, a: Eui, b: Eui, c: real) {
    exists v :: v in views && v.eui == a && b in nodes && b in v.links.info && c == LinkCost(v.links.info[b])
  }

  /** `o` is all that the modules say about the edge from `a` to `b`. */
  ghost predicate Told(views: seq<View>, nodes: set<Eui>, a: Eui, b: Eui, o: Option<real>) {
    match o
    case None => forall c :: !Says(views, nodes, a, b, c)
    case Some(c) => Says(views, nodes, a, b, c) && forall d :: Says(views, nodes, a, b, d) ==> d == c
  }

  lemma ToldSame(views: seq<View>, nodes: set<Eui>, a: Eui, b: Eui, o: Option<real>, p: Option<real>)
    requires Told(views, nodes, a, b, o) && Told(views, nodes, a, b, p)
    ensures o == p
  {
    hide Says;
  }

  lemma TableMembers(t: Table, b: Eui)
    requires t.Valid()
    ensures b in t.order[..|t.order|] <==> b in t.info
  {
    assert t.order[..|t.order|] == t.order;
  }

  lemma WellFormedPrefix(views: seq<View>, i: nat)
    requires WellFormed(views) && 0 < i <= |views|
    ensures WellFormed(views[..i]) && WellFormed(views[..i - 1]) && views[i - 1].links.Valid() && Listed(views[i - 1])
    ensures forall v :: v in views[..i - 1] ==> v.eui != views[i - 1].eui
    ensures forall v :: v in views[..i] <==> v in views[..i - 1] || v == views[i - 1]
  {
    assert views[..i] == views[..i - 1] + [views[i - 1]];
  }

  /** After the first `i` modules the reports are exactly what those modules say. */
  lemma {:induction false} ModulesReported(views: seq<View>, nodes: set<Eui>, i: nat, a: Eui, b: Eui)
    requires WellFormed(views) && i <= |views| && (forall k :: 0 <= k < |views| ==> Listed(views[k]))
    ensures Told(views[..i], nodes, a, b, Lookup(ReportsOf(views, nodes, i), a, b))
  {
    hide LinkCost, Table.Valid, WellFormed, Listed, ReportsOfLinks, Lookup, Says;
    if i == 0 {
      NothingReported(nodes, a, b);
      assert views[..0] == [];
      NothingSaid(nodes, a, b);
    } else {
      var v, reps := views[i - 1], ReportsOf(views, nodes, i - 1);
      WellFormedPrefix(views, i);
      ModulesReported(views, nodes, i - 1, a, b);
      LinksReported(reps, nodes, v, |v.links.order|, a, b);
      TableMembers(v.links, b);
      SaysStep(views, nodes, i, a, b);
    }
  }

  lemma NothingSaid(nodes: set<Eui>, a: Eui, b: Eui)
    ensures forall c :: !Says([], nodes, a, b, c)
  {
  }

  lemma NothingReported(nodes: set<Eui>, a: Eui, b: Eui)
    ensures Lookup(map[], a, b).None?
  {
  }

  lemma SaysStep(views: seq<View>, nodes: set<Eui>, i: nat, a: Eui, b: Eui)
    requires WellFormed(views) && 0 < i <= |views|
    ensures var v := views[i - 1];
            forall c :: Says(views[..i], nodes, a, b, c) <==>
              if a == v.eui && b in nodes && b in v.links.info then c == LinkCost(v.links.info[b])
              else Says(views[..i - 1], nodes, a, b, c)
  {
    hide LinkCost, Table.Valid, WellFormed;
    WellFormedPrefix(views, i);
  }

  /** The graph and the reports stay in step through both loops. */
  lemma {:induction false} LinksRepresent(g: Adj, reps: Reports, nodes: set<Eui>, v: View, j: nat)
    requires g.Keys == nodes && v.eui in g && j <= |v.links.order| && Listed(v) && Distinct(v.links.order)
    requires Represents(g, reps) && (forall b :: (v.eui, b) !in reps)
    ensures Represents(AfterLinks(g, v, j), ReportsOfLinks(reps, nodes, v, j))
  {
    hide LinkCost, Represents, Join;
    if j > 0 {
      var b := v.links.order[j - 1];
      LinksRepresent(g, reps, nodes, v, j - 1);
      LinksReported(reps, nodes, v, j - 1, v.eui, b);
      if b in nodes {
        JoinStep(AfterLinks(g, v, j - 1), ReportsOfLinks(reps, nodes, v, j - 1), v.eui, b, LinkCost(v.links.info[b]));
      }
    }
  }

  lemma Fresh(views: seq<View>, nodes: set<Eui>, i: nat, b: Eui)
    requires WellFormed(views) && 0 < i <= |views| && (forall k :: 0 <= k < |views| ==> Listed(views[k]))
    ensures (views[i - 1].eui, b) !in ReportsOf(views, nodes, i - 1)
  {
    hide ReportsOf, LinkCost, WellFormed, Listed;
    WellFormedPrefix(views, i);
    ModulesReported(views, nodes, i - 1, views[i - 1].eui, b);
  }

  lemma {:induction false} ModulesRepresent(views: seq<View>, nodes: set<Eui>, i: nat)
    requires WellFormed(views) && i <= |views|
    requires forall k :: 0 <= k < |views| ==> views[k].eui in nodes && Listed(views[k])
    ensures Represents(AfterModules(views, nodes, i), ReportsOf(views, nodes, i))
  {
    hide Represents, AfterLinks, ReportsOfLinks, WellFormed, Table.Valid;
    if i == 0 {
      BaseRepresents(nodes);
    } else {
      var v := views[i - 1];
      ModulesRepresent(views, nodes, i - 1);
      WellFormedPrefix(views, i);
      TableDistinct(v.links);
      forall b ensures (v.eui, b) !in ReportsOf(views, nodes, i - 1) {
        Fresh(views, nodes, i, b);
      }
      LinksRepresent(AfterModules(views, nodes, i - 1), ReportsOf(views, nodes, i - 1), nodes, v, |v.links.order|);
    }
  }

  lemma TableDistinct(t: Table)
    requires t.Valid()
    ensures Distinct(t.order)
  {
  }

  lemma BaseRepresents(nodes: set<Eui>)
    ensures Represents(Base(nodes), map[])
  {
  }

  // ---------------------------------------------------------------- the theorems

  lemma GraphRepresents(views: seq<View>, gateway: Eui)
    requires WellFormed(views)
    ensures (forall k :: 0 <= k < |views| ==> Listed(views[k]))
    ensures GraphOf(views, gateway).Keys == Nodes(views, gateway)
    ensures var nodes := Nodes(views, gateway);
            Represents(GraphOf(views, gateway), ReportsOf(views, nodes, |views|))
  {
    hide Represents, AfterModules, ReportsOf, WellFormed, Listed;
    NodesHold(views, gateway);
    ModulesRepresent(views, Nodes(views, gateway), |views|);
  }

  /** What the edge between two nodes costs: the mean of the two ends' reports, or the only one. */
  lemma EdgeMeaning(views: seq<View>, gateway: Eui, a: Eui, b: Eui) returns (there: Option<real>, back: Option<real>)
    requires WellFormed(views)
    ensures Told(views, Nodes(views, gateway), a, b, there) && Told(views, Nodes(views, gateway), b, a, back)
    ensures Entry(GraphOf(views, gateway), a, b)
            == if back.None? then there else if there.None? then back else Some((there.value + back.value) / 2.0)
  {
    hide Says, GraphOf, Nodes, WellFormed, ReportsOf, Entry, Listed, RowValid;
    var nodes, g := Nodes(views, gateway), GraphOf(views, gateway);
    GraphRepresents(views, gateway);
    assert views[..|views|] == views;
    there, back := Lookup(ReportsOf(views, nodes, |views|), a, b), Lookup(ReportsOf(views, nodes, |views|), b, a);
    ModulesReported(views, nodes, |views|, a, b);
    ModulesReported(views, nodes, |views|, b, a);
    SaysEnds(views, gateway, a, b);
    SaysEnds(views, gateway, b, a);
    NoEntry(g, a, b);
  }

  lemma SaysEnds(views: seq<View>, gateway: Eui, a: Eui, b: Eui)
    ensures var nodes := Nodes(views, gateway); forall c :: Says(views, nodes, a, b, c) ==> a in nodes && b in nodes
  {
    hide LinkCost;
  }

  lemma NoEntry(g: Adj, a: Eui, b: Eui)
    ensures a !in g ==> Entry(g, a, b).None?
  {
  }

  /** The graph is symmetric, its edges stay among the online nodes, and every edge costs at least
      a tenth; at least one when every report is one the wire can carry. */
  lemma GraphSound(views: seq<View>, gateway: Eui)
    requires WellFormed(views)
    ensures var g := GraphOf(views, gateway);
            && Valid(g) && Symmetric(g) && g.Keys == Nodes(views, gateway)
            && forall a, b :: Edge(g, a, b) ==> W(g, a, b) >= 0.1
    ensures (forall v, b :: v in views && b in v.links.info ==> Plausible(v.links.info[b])) ==>
              var g := GraphOf(views, gateway); forall a, b :: Edge(g, a, b) ==> W(g, a, b) >= 1.0
  {
    hide GraphOf, WellFormed, Nodes, Says, RowValid, ReportsOf, Listed;
    var g, nodes := GraphOf(views, gateway), Nodes(views, gateway);
    GraphRepresents(views, gateway);
    forall a, b | Edge(g, a, b)
      ensures b in g && Edge(g, b, a) && W(g, b, a) == W(g, a, b) && W(g, a, b) >= 0.1
      ensures (forall v, b :: v in views && b in v.links.info ==> Plausible(v.links.info[b])) ==> W(g, a, b) >= 1.0
    {
      BothWays(views, gateway, a, b);
      Costs(views, gateway, a, b);
    }
  }

  /** Within the ranges of the wire format. */
  predicate Plausible(nb: Neighbor) {
    nb.rangeCm >= 0 && nb.linkQuality <= 255
  }

  lemma BothWays(views: seq<View>, gateway: Eui, a: Eui, b: Eui)
    requires WellFormed(views) && Edge(GraphOf(views, gateway), a, b)
    ensures var g := GraphOf(views, gateway); b in g && Edge(g, b, a) && W(g, b, a) == W(g, a, b)
  {
    hide Says, GraphOf, Nodes, WellFormed, ReportsOf, Listed, RowValid;
    var nodes := Nodes(views, gateway);
    GraphRepresents(views, gateway);
    var there, back := EdgeMeaning(views, gateway, a, b);
    var there', back' := EdgeMeaning(views, gateway, b, a);
    ToldSame(views, nodes, a, b, there, back');
    ToldSame(views, nodes, b, a, back, there');
    SaysEnds(views, gateway, a, b);
    SaysEnds(views, gateway, b, a);
  }

  lemma SaysCosts(views: seq<View>, nodes: set<Eui>, a: Eui, b: Eui)
    ensures forall c :: Says(views, nodes, a, b, c) ==> c >= 0.1
    ensures (forall v, b :: v in views && b in v.links.info ==> Plausible(v.links.info[b])) ==>
              forall c :: Says(views, nodes, a, b, c) ==> c >= 1.0
  {
  }

  lemma Costs(views: seq<View>, gateway: Eui, a: Eui, b: Eui)
    requires WellFormed(views) && Edge(GraphOf(views, gateway), a, b)
    ensures W(GraphOf(views, gateway), a, b) >= 0.1
    ensures (forall v, b :: v in views && b in v.links.info ==> Plausible(v.links.info[b])) ==>
              W(GraphOf(views, gateway), a, b) >= 1.0
  {
    hide Says, GraphOf, Nodes, WellFormed, LinkCost, Plausible;
    var nodes := Nodes(views, gateway);
    var there, back := EdgeMeaning(views, gateway, a, b);
    SaysCosts(views, nodes, a, b);
    SaysCosts(views, nodes, b, a);
  }

  /** The order in which modules are gone through does not show in the graph. */
  lemma OrderIrrelevant(views: seq<View>, others: seq<View>, gateway: Eui, a: Eui, b: Eui)
    requires WellFormed(views) && WellFormed(others) && forall v :: v in views <==> v in others
    ensures Nodes(views, gateway) == Nodes(others, gateway)
    ensures Entry(GraphOf(views, gateway), a, b) == Entry(GraphOf(others, gateway), a, b)
  {
    hide GraphOf, WellFormed, Entry, Says, Nodes;
    var nodes := Nodes(views, gateway);
    SameNodes(views, others, gateway);
    var there, back := EdgeMeaning(views, gateway, a, b);
    var there', back' := EdgeMeaning(others, gateway, a, b);
    SameSays(views, others, nodes, a, b);
    SameSays(views, others, nodes, b, a);
    ToldSame(views, nodes, a, b, there, there');
    ToldSame(views, nodes, b, a, back, back');
  }

  lemma SameNodes(views: seq<View>, others: seq<View>, gateway: Eui)
    requires forall v :: v in views <==> v in others
    ensures Nodes(views, gateway) == Nodes(others, gateway)
  {
  }

  lemma SameSays(views: seq<View>, others: seq<View>, nodes: set<Eui>, a: Eui, b: Eui)
    requires forall v :: v in views <==> v in others
    ensures forall c :: Says(views, nodes, a, b, c) <==> Says(others, nodes, a, b, c)
  {
    hide LinkCost;
  }
}
