/** The router's tick over the registry (olympus_link/autorouter.py, olympus_link/model.py): new
    routes for every online module, and which of them have to be pushed. */
module Router {
  import opened Adjacency
  import opened Graph
  import opened Histories
  import opened Loops
  import opened Parents
  import opened Sequences
  import opened Wrappers

  /** What the hash of an assignment covers; subscriptions are sorted first, so their order does
      not matter. */
  datatype Key = Key(primary: Option<Eui>, secondary: Option<Eui>, subs: multiset<Eui>)

  /** A route assignment; `pushed` is what the module was last told. */
  datatype Route = Route(primary: Option<Eui>, secondary: Option<Eui>, subs: seq<Eui>, pushed: Option<Key>)

  function KeyOf(r: Route): Key {
    Key(r.primary, r.secondary, multiset(r.subs))
  }

  /** The assignment a tick leaves behind. */
  function Assigned(g: Adj, dist: map<Eui, Dist>, prev: map<Eui, Option<Eui>>, n: Eui, before: Route, margin: real,
                    subs: seq<Eui>): Route
    requires Ready(g, dist, prev, n) && RowReady(g, dist, n)
  {
    var primary := ChoosePrimary(g, dist, prev, n, before.primary, margin);
    var secondary := ChooseSecondary(g, dist, n, primary);
    Route(primary, secondary, subs, Some(Key(primary, secondary, multiset(subs))))
  }

  class ModuleState {
    const eui: Eui
    var links: Table
    var online: bool
    var route: Route

    constructor (eui: Eui)
      ensures this.eui == eui && links == Table([], map[]) && online && route == Route(None, None, [], None)
    {
      this.eui := eui;
      links, online, route := Table([], map[]), true, Route(None, None, [], None);
    }

    /** The tick's work on one module; `moved` says whether it has to be told. */
    method Reassign(g: Adj, dist: map<Eui, Dist>, prev: map<Eui, Option<Eui>>, margin: real, subs: seq<Eui>)
      returns (moved: bool)
      requires Ready(g, dist, prev, eui) && RowReady(g, dist, eui)
      modifies this`route
      ensures route == Assigned(g, dist, prev, eui, old(route), margin, subs)
      ensures moved == (old(route.pushed) != route.pushed) && route.pushed == Some(KeyOf(route))
    {
      hide Ready, RowReady, ChoosePrimary, ChooseSecondary;
      var primary := ChoosePrimary(g, dist, prev, eui, route.primary, margin);
      var secondary := PickSecondary(g, dist, eui, primary);
      var key := Key(primary, secondary, multiset(subs));
      moved := route.pushed != Some(key);
      if moved {
        route := Route(primary, secondary, subs, Some(key));
      } else {
        route := route.(primary := primary, secondary := secondary, subs := subs);
      }
    }

    function Seen(): View
      reads this`links
    {
      View(eui, links)
    }
  }

  /** What the router sees: the online modules, in order. */
  function ViewsOf(ms: seq<ModuleState>): (r: seq<View>)
    reads ms
    ensures forall m :: m in ms && m.online ==> m.Seen() in r
    decreases |ms|
  {
    if ms == [] then []
    else
      var rest := ViewsOf(ms[..|ms| - 1]);
      if ms[|ms| - 1].online then rest + [ms[|ms| - 1].Seen()] else rest
  }

  predicate DistinctEuis(ms: seq<ModuleState>) {
    forall i, j :: 0 <= i < j < |ms| ==> ms[i].eui != ms[j].eui
  }

  lemma {:induction false} ViewsWellFormed(ms: seq<ModuleState>)
    requires DistinctEuis(ms) && forall m :: m in ms ==> m.links.Valid()
    ensures WellFormed(ViewsOf(ms)) && forall v :: v in ViewsOf(ms) ==> exists m :: m in ms && m.online && m.Seen() == v
    decreases |ms|
  {
    hide Table.Valid;
    if ms != [] {
      var front, last := ms[..|ms| - 1], ms[|ms| - 1];
      ViewsWellFormed(front);
      forall v | v in ViewsOf(front) ensures v.eui != last.eui && exists m :: m in ms && m.online && m.Seen() == v {
        var m :| m in front && m.online && m.Seen() == v;
        assert m in ms;
      }
    }
  }

  /** The routes the modules hold. */
  ghost function RoutesOf(ms: seq<ModuleState>): map<Eui, Route>
    reads ms
    decreases |ms|
  {
    if ms == [] then map[] else RoutesOf(ms[..|ms| - 1])[ms[|ms| - 1].eui := ms[|ms| - 1].route]
  }

  ghost function Primaries(routes: map<Eui, Route>): map<Eui, Option<Eui>> {
    map n | n in routes :: routes[n].primary
  }

  ghost function Secondaries(routes: map<Eui, Route>): map<Eui, Option<Eui>> {
    map n | n in routes :: routes[n].secondary
  }

  lemma {:induction false} RoutesHeld(ms: seq<ModuleState>)
    requires DistinctEuis(ms)
    ensures forall m :: m in ms ==> m.eui in RoutesOf(ms) && RoutesOf(ms)[m.eui] == m.route
    ensures forall n :: n in RoutesOf(ms) ==> exists m :: m in ms && m.eui == n
    decreases |ms|
  {
    if ms != [] {
      var front, last := ms[..|ms| - 1], ms[|ms| - 1];
      RoutesHeld(front);
      assert ms == front + [last];
      assert last in ms;
      forall n | n in RoutesOf(ms) ensures exists m :: m in ms && m.eui == n {
        if n != last.eui {
          assert n in RoutesOf(front);
          var m :| m in front && m.eui == n;
          assert m in ms;
        }
      }
    }
  }

  /** `orphans`: online modules without a parent. */
  function OrphansOf(ms: seq<ModuleState>, gateway: Eui): (r: seq<Eui>)
    reads ms
    ensures forall n :: n in r <==>
              exists m :: m in ms && m.online && m.eui != gateway && m.route.primary.None? && m.eui == n
    decreases |ms|
  {
    if ms == [] then []
    else
      var rest, m := OrphansOf(ms[..|ms| - 1], gateway), ms[|ms| - 1];
      assert ms == ms[..|ms| - 1] + [m];
      if m.online && m.eui != gateway && m.route.primary.None? then rest + [m.eui] else rest
  }

  class Autorouter {
    /** The registry's modules, in the order they were first heard. */
    var modules: seq<ModuleState>
    const gateway: Eui
    const margin: real

    constructor (gateway: Eui, margin: real)
      ensures this.gateway == gateway && this.margin == margin && modules == [] && Valid()
    {
      this.gateway, this.margin, modules := gateway, margin, [];
    }

    ghost predicate Valid()
      reads this, modules
    {
      DistinctEuis(modules) && forall m :: m in modules ==> m.links.Valid()
    }

    function Views(): seq<View>
      reads this, modules
    {
      ViewsOf(modules)
    }

    /** What a tick leaves in a module that had `before`. */
    ghost function After(t: Tick, m: ModuleState, before: Route, subs: seq<Eui>): Route
      reads m
      requires Routed(m) ==> Ready(t.g, t.dist, t.prev, m.eui) && RowReady(t.g, t.dist, m.eui)
    {
      if Routed(m) then Assigned(t.g, t.dist, t.prev, m.eui, before, margin, subs) else before
    }

    /** Online, and not the gateway itself. */
    predicate Routed(m: ModuleState)
      reads m
    {
      m.online && m.eui != gateway
    }

    /** The modules hold the routes in `was`. */
    ghost predicate Holds(was: map<Eui, Route>)
      reads this, modules
    {
      forall m :: m in modules ==> m.eui in was && was[m.eui] == m.route
    }

    /** The tick is ready for every online module. */
    ghost predicate AllReady(t: Tick)
      reads this, modules
    {
      forall m :: m in modules && Routed(m) ==> Ready(t.g, t.dist, t.prev, m.eui) && RowReady(t.g, t.dist, m.eui)
    }

    /** What the tick made of the routes in `was`. */
    ghost predicate Made(t: Tick, subscribe: Eui -> seq<Eui>, was: map<Eui, Route>)
      reads this, modules
    {
      && AllReady(t)
      && (forall m :: m in modules ==> m.eui in was && m.route == After(t, m, was[m.eui], subscribe(m.eui)))
    }

    /** Exactly the modules whose assignment is not what they were last told in `was`, each once. */
    ghost predicate Pushes(changed: seq<ModuleState>, was: map<Eui, Route>)
      reads this, modules
    {
      && Distinct(changed) && (forall m :: m in changed ==> m in modules)
      && (forall m :: m in modules ==> m.eui in was && (m in changed <==> was[m.eui].pushed != m.route.pushed))
    }

    /** The first `i` modules have had their turn and are reported as they should be; the others are as they
        were. */
    ghost predicate Upto(t: Tick, subscribe: Eui -> seq<Eui>, was: map<Eui, Route>, changed: seq<ModuleState>, i: nat)
      reads this, modules
      requires AllReady(t)
    {
      && i <= |modules| && Distinct(changed) && (forall m :: m in changed ==> m in modules[..i])
      && (forall k :: 0 <= k < |modules| ==> modules[k].eui in was)
      && (forall k :: 0 <= k < i ==> var m := modules[k]; m.route == After(t, m, was[m.eui], subscribe(m.eui)))
      && (forall k :: i <= k < |modules| ==> modules[k].route == was[modules[k].eui])
      && (forall k :: 0 <= k < i ==> (modules[k] in changed <==> was[modules[k].eui].pushed != modules[k].route.pushed))
    }

    /** The loop of `compute` over the modules. */
    method AssignAll(g: Adj, dist: map<Eui, Dist>, prev: map<Eui, Option<Eui>>, subscribe: Eui -> seq<Eui>,
                     ghost was: map<Eui, Route>) returns (changed: seq<ModuleState>)
      requires DistinctEuis(modules) && Holds(was)
      requires forall m :: m in modules && Routed(m) ==> Ready(g, dist, prev, m.eui) && RowReady(g, dist, m.eui)
      modifies modules`route
      ensures Made(Tick(g, gateway, dist, prev, margin), subscribe, was) && Pushes(changed, was)
    {
      hide After, Ready, RowReady, Distinct, Upto;
      changed := [];
      ghost var t := Tick(g, gateway, dist, prev, margin);
      NoneYet(t, subscribe, was);
      for i := 0 to |modules|
        modifies modules`route
        invariant Upto(t, subscribe, was, changed, i)
      {
        changed := AssignAt(i, g, dist, prev, subscribe, was, changed);
      }
      AllDone(t, subscribe, was, changed);
    }

    lemma NoneYet(t: Tick, subscribe: Eui -> seq<Eui>, was: map<Eui, Route>)
      requires Holds(was)
      requires AllReady(t)
      ensures Upto(t, subscribe, was, [], 0)
    {
      hide After, Ready, RowReady;
    }

    lemma AllDone(t: Tick, subscribe: Eui -> seq<Eui>, was: map<Eui, Route>, changed: seq<ModuleState>)
      requires AllReady(t)
      requires Upto(t, subscribe, was, changed, |modules|)
      ensures Made(t, subscribe, was) && Pushes(changed, was)
    {
      hide After, Ready, RowReady, Distinct;
      assert modules[..|modules|] == modules;
    }

    /** The turn of the module at `i`. */
    method AssignAt(i: nat, g: Adj, dist: map<Eui, Dist>, prev: map<Eui, Option<Eui>>, subscribe: Eui -> seq<Eui>,
                    ghost was: map<Eui, Route>, before: seq<ModuleState>) returns (changed: seq<ModuleState>)
      requires DistinctEuis(modules) && i < |modules|
      requires forall m :: m in modules && Routed(m) ==> Ready(g, dist, prev, m.eui) && RowReady(g, dist, m.eui)
      requires Upto(Tick(g, gateway, dist, prev, margin), subscribe, was, before, i)
      modifies modules`route
      ensures Upto(Tick(g, gateway, dist, prev, margin), subscribe, was, changed, i + 1)
    {
      hide After, Ready, RowReady, Distinct;
      var m := modules[i];
      Apart(i);
      var moved := Assign(m, g, dist, prev, subscribe(m.eui));
      changed := if moved then before + [m] else before;
      if moved { DistinctSnoc(before, m); }
      assert modules[..i + 1] == modules[..i] + [m];
    }

    /** The module at `i` is none of the others. */
    lemma Apart(i: nat)
      requires DistinctEuis(modules) && i < |modules|
      ensures forall k :: 0 <= k < |modules| && k != i ==> modules[k] != modules[i]
      ensures modules[i] !in modules[..i]
    {
    }

    /** One turn of that loop; offline modules and the gateway are passed over. */
    method Assign(m: ModuleState, g: Adj, dist: map<Eui, Dist>, prev: map<Eui, Option<Eui>>, subs: seq<Eui>)
      returns (moved: bool)
      requires Routed(m) ==> Ready(g, dist, prev, m.eui) && RowReady(g, dist, m.eui)
      modifies m`route
      ensures m.route == After(Tick(g, gateway, dist, prev, margin), m, old(m.route), subs)
      ensures moved == (old(m.route.pushed) != m.route.pushed)
    {
      hide Assigned, Ready, RowReady;
      if !m.online || m.eui == gateway { return false; }
      moved := m.Reassign(g, dist, prev, margin, subs);
    }

    /** `t` is an exact tick over the registry as it stands. */
    ghost predicate TickOver(t: Tick)
      reads this, modules
    {
      && Valid() && WellFormed(Views()) && t == Tick(GraphOf(Views(), gateway), gateway, t.dist, t.prev, margin)
      && Graph.Valid(t.g) && Symmetric(t.g) && ShortestTree(t.g, gateway, t.dist, t.prev)
    }

    /** Every online module holds what the tick makes of some earlier route. */
    ghost predicate Routes(t: Tick, subscribe: Eui -> seq<Eui>)
      reads this, modules
    {
      forall m :: m in modules && Routed(m) ==> FromTick(t, m.eui, m.route, subscribe(m.eui))
    }

    /** The routes are those of a tick over the registry as it stands. */
    ghost predicate Settled(subscribe: Eui -> seq<Eui>)
      reads this, modules
    {
      exists t :: TickOver(t) && Routes(t, subscribe)
    }

    /** The first half of `compute`: the graph, and exact distances over it. */
    method Measure() returns (adj: Adj, dist: map<Eui, Dist>, prev: map<Eui, Option<Eui>>)
      requires Valid()
      ensures TickOver(Tick(adj, gateway, dist, prev, margin))
      ensures forall m :: m in modules && Routed(m) ==> Ready(adj, dist, prev, m.eui) && RowReady(adj, dist, m.eui)
    {
      hide Graph.Valid, Symmetric, ShortestTree, GraphOf, WellFormed, Ready, RowReady, Table.Valid, ViewsOf;
      ViewsWellFormed(modules);
      adj := BuildGraph(Views(), gateway);
      GraphSound(Views(), gateway);
      ghost var scans;
      dist, prev, scans := Dijkstra(adj, gateway);
      forall m | m in modules && Routed(m) ensures Ready(adj, dist, prev, m.eui) && RowReady(adj, dist, m.eui) {
        OnlineReady(Views(), adj, gateway, dist, prev, m.Seen());
      }
    }

    /** `compute`: every online module but the gateway gets the assignment of this tick over exact
        distances; those whose assignment is not what they were last told are returned, once each. */
    method Compute(subscribe: Eui -> seq<Eui>) returns (changed: seq<ModuleState>, ghost t: Tick)
      requires Valid()
      modifies modules`route
      ensures TickOver(t) && Made(t, subscribe, old(RoutesOf(modules))) && Pushes(changed, old(RoutesOf(modules)))
      // A second call over an unchanged registry changes nothing and pushes nothing.
      ensures Settled(subscribe)
      ensures old(Settled(subscribe)) && 0.0 <= margin ==> changed == [] && RoutesOf(modules) == old(RoutesOf(modules))
      // The parents now held are the ones the theorems on loops and histories are about.
      ensures 0.0 <= margin < 1.0 ==>
                && t.Valid() && Chosen(t, Primaries(RoutesOf(modules)))
                && Backed(t, Primaries(RoutesOf(modules)), Secondaries(RoutesOf(modules)))
                && Primaries(RoutesOf(modules)) == Next(t, old(Primaries(RoutesOf(modules))))
    {
      hide TickOver, Routes, Settled, Made, Pushes, Ready, RowReady, Chosen, Backed, Next, RoutesOf, Primaries,
           Secondaries, Tick.Valid;
      var adj, dist, prev := Measure();
      t := Tick(adj, gateway, dist, prev, margin);
      ghost var was := RoutesOf(modules);
      RoutesHeld(modules);
      ghost var earlier := Earlier(subscribe, was);
      changed := AssignAll(adj, dist, prev, subscribe, was);
      TickStays(t);
      if earlier.Some? { TickStays(earlier.value); }
      Outcome(earlier, t, changed, subscribe, was);
    }

    /** The tick that `was` comes from. */
    ghost predicate From(earlier: Tick, subscribe: Eui -> seq<Eui>, was: map<Eui, Route>)
      reads this, modules
    {
      forall m :: m in modules && Routed(m) ==> m.eui in was && FromTick(earlier, m.eui, was[m.eui], subscribe(m.eui))
    }

    /** The tick the routes come from, if there is one. */
    lemma Earlier(subscribe: Eui -> seq<Eui>, was: map<Eui, Route>) returns (earlier: Option<Tick>)
      requires Holds(was)
      ensures earlier.Some? <==> Settled(subscribe)
      ensures earlier.Some? ==> TickOver(earlier.value) && From(earlier.value, subscribe, was)
    {
      hide TickOver, FromTick;
      earlier := None;
      if Settled(subscribe) {
        var t :| TickOver(t) && Routes(t, subscribe);
        earlier := Some(t);
      }
    }

    /** What follows from the tick's work on every module. */
    lemma Outcome(earlier: Option<Tick>, t: Tick, changed: seq<ModuleState>, subscribe: Eui -> seq<Eui>,
                  was: map<Eui, Route>)
      requires TickOver(t) && t.margin == margin && Made(t, subscribe, was) && Pushes(changed, was)
      requires earlier.Some? ==> TickOver(earlier.value) && From(earlier.value, subscribe, was)
      requires forall n :: n in was ==> exists m :: m in modules && m.eui == n
      ensures Settled(subscribe)
      ensures earlier.Some? && 0.0 <= margin ==> changed == [] && RoutesOf(modules) == was
      ensures 0.0 <= margin < 1.0 ==>
                && t.Valid() && Chosen(t, Primaries(RoutesOf(modules)))
                && Backed(t, Primaries(RoutesOf(modules)), Secondaries(RoutesOf(modules)))
                && Primaries(RoutesOf(modules)) == Next(t, Primaries(was))
    {
      hide TickOver, Routes, From, Chosen, Backed, Next, RoutesOf, Primaries, Secondaries, Tick.Valid, Made, Pushes;
      RoutesHold(t, subscribe, was);
      if earlier.Some? && 0.0 <= margin {
        StaysPut(earlier.value, t, subscribe, was);
        Unmoved(t, changed, was);
      }
      if 0.0 <= margin < 1.0 {
        ParentsChosen(t, subscribe);
        ParentsNext(t, subscribe, was);
      }
    }

    /** Assigning routes does not change what a tick is over. */
    twostate lemma TickStays(t: Tick)
      requires old(TickOver(t)) && modules == old(modules)
      requires forall m :: m in modules ==> m.links == old(m.links) && m.online == old(m.online)
      ensures TickOver(t)
    {
      hide GraphOf, WellFormed, ShortestTree, Graph.Valid, Symmetric, ViewsOf, Table.Valid;
      ViewsStay(modules);
    }

    lemma RoutesHold(t: Tick, subscribe: Eui -> seq<Eui>, was: map<Eui, Route>)
      requires t.margin == margin && Made(t, subscribe, was)
      ensures Routes(t, subscribe)
    {
      hide Ready, RowReady, Assigned;
    }

    lemma StaysPut(t0: Tick, t: Tick, subscribe: Eui -> seq<Eui>, was: map<Eui, Route>)
      requires TickOver(t0) && TickOver(t) && 0.0 <= margin && Made(t, subscribe, was) && From(t0, subscribe, was)
      ensures Holds(was)
    {
      hide Ready, RowReady, Assigned, GraphOf, WellFormed, ShortestTree, FromTick, ViewsOf, Graph.Valid, Symmetric;
      forall m | m in modules ensures m.eui in was && was[m.eui] == m.route {
        if Routed(m) {
          SecondTickIdle(Views(), t0, t, m.Seen(), was[m.eui], subscribe(m.eui));
        }
      }
    }

    lemma Unmoved(t: Tick, changed: seq<ModuleState>, was: map<Eui, Route>)
      requires TickOver(t) && Pushes(changed, was) && Holds(was)
      requires forall n :: n in was ==> exists m :: m in modules && m.eui == n
      ensures changed == [] && RoutesOf(modules) == was
    {
      hide Distinct, GraphOf, WellFormed, ShortestTree, Graph.Valid, Symmetric, ViewsOf, RoutesOf;
      Head(changed);
      RoutesHeld(modules);
      forall n ensures n in was <==> n in RoutesOf(modules) {
      }
      forall n | n in was ensures was[n] == RoutesOf(modules)[n] {
        var m :| m in modules && m.eui == n;
      }
    }

    /** Nodes of the graph are the online modules and the gateway. */
    lemma NodesOnline(t: Tick)
      requires TickOver(t)
      ensures forall n :: Module(t, n) ==> exists m :: m in modules && Routed(m) && m.eui == n
      ensures forall m :: m in modules && Routed(m) ==> Module(t, m.eui)
    {
      hide GraphOf, WellFormed, ShortestTree, Graph.Valid, Symmetric, ViewsOf, Table.Valid;
      ViewsWellFormed(modules);
      GraphSound(Views(), gateway);
      forall m | m in modules && Routed(m) ensures Module(t, m.eui) {
        assert m.Seen() in Views();
      }
    }

    lemma ParentsChosen(t: Tick, subscribe: Eui -> seq<Eui>)
      requires TickOver(t) && Routes(t, subscribe) && 0.0 <= margin < 1.0
      ensures t.Valid() && Chosen(t, Primaries(RoutesOf(modules)))
      ensures Backed(t, Primaries(RoutesOf(modules)), Secondaries(RoutesOf(modules)))
    {
      hide GraphOf, WellFormed, ShortestTree, Graph.Valid, Symmetric, ViewsOf, Table.Valid, RoutesOf,
           Ready, RowReady, Assigned, Picked;
      NodesOnline(t);
      RoutesHeld(modules);
      var routes := RoutesOf(modules);
      forall n | Module(t, n)
        ensures n in routes && Picked(t, n, routes[n].primary) && RowReady(t.g, t.dist, n)
        ensures routes[n].secondary == ChooseSecondary(t.g, t.dist, n, routes[n].primary)
      {
        var m :| m in modules && Routed(m) && m.eui == n;
        var before :| m.route == Assigned(t.g, t.dist, t.prev, n, before, t.margin, subscribe(n));
        AssignedPicked(t, n, before, subscribe(n));
      }
    }

    /** Each module of the graph takes the step of the histories; the others keep what they had. */
    lemma ParentsNext(t: Tick, subscribe: Eui -> seq<Eui>, was: map<Eui, Route>)
      requires TickOver(t) && t.Valid() && Made(t, subscribe, was)
      requires forall n :: n in was ==> exists m :: m in modules && m.eui == n
      ensures Primaries(RoutesOf(modules)) == Next(t, Primaries(was))
    {
      hide Tick.Valid, GraphOf, WellFormed, ShortestTree, Graph.Valid, Symmetric, ViewsOf, Table.Valid, RoutesOf, Ready,
           RowReady, ChoosePrimary, ChooseSecondary, PrimaryUnder;
      var now, held := Primaries(RoutesOf(modules)), Primaries(was);
      NodesOnline(t);
      TickReady(t);
      RoutesHeld(modules);
      forall n ensures n in now <==> n in Next(t, held) {
      }
      forall n | n in now ensures now[n] == Next(t, held)[n] {
        var m :| m in modules && m.eui == n;
        ParentNext(t, subscribe, was, m);
      }
    }

    lemma ParentNext(t: Tick, subscribe: Eui -> seq<Eui>, was: map<Eui, Route>, m: ModuleState)
      requires TickOver(t) && t.Valid() && Made(t, subscribe, was) && m in modules
      ensures m.eui in Next(t, Primaries(was)) && Next(t, Primaries(was))[m.eui] == m.route.primary
    {
      hide Tick.Valid, GraphOf, WellFormed, ShortestTree, Graph.Valid, Symmetric, ViewsOf, Table.Valid, RoutesOf, Ready,
           RowReady, ChoosePrimary, ChooseSecondary, PrimaryUnder, Assigned;
      NodesOnline(t);
      if Module(t, m.eui) {
        NextAt(t, Primaries(was), m.eui);
        PrimaryIs(t, Primaries(was), m.eui, was[m.eui], subscribe(m.eui));
        var x :| x in modules && Routed(x) && x.eui == m.eui;
        SameModule(modules, m);
      }
    }

    /** What a module has been told after a tick is what it holds: its two parents and its subscriptions. */
    lemma ToldIs(t: Tick, subscribe: Eui -> seq<Eui>, m: ModuleState)
      requires Routes(t, subscribe) && m in modules && Routed(m)
      ensures m.route.subs == subscribe(m.eui)
      ensures m.route.pushed.Some? && m.route.pushed.value.primary == m.route.primary
      ensures m.route.pushed.value.secondary == m.route.secondary && m.route.pushed.value.subs == multiset(m.route.subs)
    {
      hide Ready, RowReady, ChoosePrimary, ChooseSecondary;
    }

    /** The stored secondary of a module: there is one exactly when some neighbour other than its primary is
        nearer to the gateway than the module, and then it is one of those with the shortest way. */
    lemma SecondaryIff(t: Tick, subscribe: Eui -> seq<Eui>, m: ModuleState)
      requires TickOver(t) && Routes(t, subscribe) && m in modules && Routed(m)
      ensures m.route.secondary.Some? <==> exists x :: Alternate(t.g, gateway, m.eui, m.route.primary, x)
      ensures m.route.secondary.Some? ==>
                && Alternate(t.g, gateway, m.eui, m.route.primary, m.route.secondary.value)
                && ShortestWay(t.g, gateway, m.eui, m.route.primary, m.route.secondary.value)
    {
      hide GraphOf, WellFormed, ShortestTree, Graph.Valid, Symmetric, ViewsOf, Table.Valid, Ready, RowReady,
           ChoosePrimary, ChooseSecondary, Alternate, ShortestWay;
      NodesOnline(t);
      var before :| m.route == Assigned(t.g, t.dist, t.prev, m.eui, before, t.margin, subscribe(m.eui));
      Parents.SecondaryIff(t.g, gateway, t.dist, t.prev, m.eui, m.route.primary);
    }

    function Orphans(): (r: seq<Eui>)
      reads this, modules
    {
      OrphansOf(modules, gateway)
    }

    /** Orphans, as the stored routes have them, are exactly the online modules that no walk connects to
        the gateway. */
    lemma OrphanIff(t: Tick, subscribe: Eui -> seq<Eui>, n: Eui)
      requires TickOver(t) && Routes(t, subscribe) && 0.0 <= margin
      ensures n in Orphans() <==> Module(t, n) && forall p :: !IsWalk(t.g, p, gateway, n)
    {
      hide GraphOf, WellFormed, ShortestTree, Graph.Valid, Symmetric, ViewsOf, Table.Valid, OrphansOf, Ready, RowReady,
           ChoosePrimary, ChooseSecondary, IsWalk;
      NodesOnline(t);
      if Module(t, n) {
        var m :| m in modules && Routed(m) && m.eui == n;
        var before :| m.route == Assigned(t.g, t.dist, t.prev, n, before, t.margin, subscribe(n));
        Parents.OrphanIff(t.g, gateway, t.dist, t.prev, n, before.primary, margin);
        SameModule(modules, m);
      }
    }
  }

  lemma Head<T>(s: seq<T>)
    ensures s != [] ==> exists x :: x in s
  {
    if s != [] { assert s[0] in s; }
  }

  lemma SameModule(ms: seq<ModuleState>, m: ModuleState)
    requires DistinctEuis(ms) && m in ms
    ensures forall x :: x in ms && x.eui == m.eui ==> x == m
  {
  }

  lemma PrimaryIs(t: Tick, cur: map<Eui, Option<Eui>>, n: Eui, before: Route, subs: seq<Eui>)
    requires Ready(t.g, t.dist, t.prev, n) && RowReady(t.g, t.dist, n) && n in cur && cur[n] == before.primary
    ensures Assigned(t.g, t.dist, t.prev, n, before, t.margin, subs).primary == PrimaryUnder(t, cur, n)
  {
    hide Ready, RowReady, ChoosePrimary, ChooseSecondary;
  }

  /** What the router sees of the modules does not include the routes it writes. */
  twostate lemma {:induction false} ViewsStay(ms: seq<ModuleState>)
    requires forall m :: m in ms ==> m.links == old(m.links) && m.online == old(m.online)
    ensures ViewsOf(ms) == old(ViewsOf(ms))
    decreases |ms|
  {
    if ms != [] { ViewsStay(ms[..|ms| - 1]); }
  }

  /** Every online module is a node the choices are ready for. */
  lemma OnlineReady(views: seq<View>, g: Adj, gateway: Eui, dist: map<Eui, Dist>, prev: map<Eui, Option<Eui>>, v: View)
    requires WellFormed(views) && g == GraphOf(views, gateway) && ShortestTree(g, gateway, dist, prev)
    requires v in views && v.eui != gateway
    ensures Ready(g, dist, prev, v.eui) && RowReady(g, dist, v.eui)
  {
    hide GraphOf, WellFormed;
    GraphSound(views, gateway);
    TreeEdge(g, gateway, dist, prev, v.eui);
  }

  /** What a tick leaves is what the theorems about parents and loops are about. */
  lemma AssignedPicked(t: Tick, n: Eui, before: Route, subs: seq<Eui>)
    requires Ready(t.g, t.dist, t.prev, n) && RowReady(t.g, t.dist, n)
    ensures var r := Assigned(t.g, t.dist, t.prev, n, before, t.margin, subs);
            && Picked(t, n, r.primary) && r.secondary == ChooseSecondary(t.g, t.dist, n, r.primary)
            && r.pushed == Some(KeyOf(r))
  {
    hide Ready, RowReady, ChoosePrimary, ChooseSecondary;
  }

  /** `r` is what the tick makes of some route of the node `n`. */
  ghost predicate FromTick(t: Tick, n: Eui, r: Route, subs: seq<Eui>) {
    && Ready(t.g, t.dist, t.prev, n) && RowReady(t.g, t.dist, n)
    && exists before :: r == Assigned(t.g, t.dist, t.prev, n, before, t.margin, subs)
  }

  /** A route that came from a tick is what any tick over the same reports makes of it, even if the
      search breaks its ties differently. */
  lemma SecondTickIdle(views: seq<View>, t1: Tick, t2: Tick, v: View, r: Route, subs: seq<Eui>)
    requires WellFormed(views) && 0.0 <= t1.margin == t2.margin && t1.root == t2.root && v in views && v.eui != t1.root
    requires t1.g == t2.g == GraphOf(views, t1.root)
    requires ShortestTree(t1.g, t1.root, t1.dist, t1.prev) && ShortestTree(t2.g, t2.root, t2.dist, t2.prev)
    requires FromTick(t1, v.eui, r, subs)
    ensures Ready(t2.g, t2.dist, t2.prev, v.eui) && RowReady(t2.g, t2.dist, v.eui)
    ensures Assigned(t2.g, t2.dist, t2.prev, v.eui, r, t2.margin, subs) == r
  {
    hide GraphOf, WellFormed, ShortestTree, ChoosePrimary, ChooseSecondary, Ready, RowReady, Graph.Valid, Symmetric;
    var g, n, root := t1.g, v.eui, t1.root;
    GraphSound(views, root);
    OnlineReady(views, g, root, t2.dist, t2.prev, v);
    DistancesUnique(g, root, t1.dist, t1.prev, t2.dist, t2.prev);
    InGraph(g, t1.dist, n);
    var before :| r == Assigned(g, t1.dist, t1.prev, n, before, t1.margin, subs);
    ChoiceIsFixed(g, root, t1.dist, t1.prev, t2.dist, t2.prev, n, before.primary, t1.margin);
  }

  lemma InGraph(g: Adj, dist: map<Eui, Dist>, n: Eui)
    requires RowReady(g, dist, n)
    ensures n in g
  {
  }
}
