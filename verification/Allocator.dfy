/** The allocator of cbba.py with its dictionaries updated in place: the bundle phase, the
    consensus phase, and the rounds until nothing changes. */
module Allocator {
  import opened Auction
  import opened Bundles
  import opened Sequences
  import opened Wrappers

  const CONVERGENCE_ROUNDS := 2
  const MAX_ROUNDS := 50

  class CBBAAllocator {
    const me: Drone
    const maxBundle: int
    var bundles: Holdings
    var winningBids: map<Task, real>
    var winningAgents: map<Task, Option<Drone>>
    var bidTimestamps: map<Task, real>

    constructor (me: Drone, maxBundle: int)
      ensures this.me == me && this.maxBundle == maxBundle
    {
      this.me, this.maxBundle := me, maxBundle;
      bundles, winningBids, winningAgents, bidTimestamps := map[], map[], map[], map[];
    }

    function State(): State
      reads this
    {
      Auction.State(bundles, winningBids, winningAgents, bidTimestamps)
    }

    /** `_bundle_phase`: fill one's own bundle with the best open tasks. */
    method BundlePhase(tasks: seq<Task>, base: Task -> real, now: real)
      requires me in bundles && forall t :: t in tasks ==> t in winningBids
      modifies this
      ensures bundles == old(bundles)[me := Fill(base, tasks, old(winningBids), old(bundles[me]), maxBundle)]
      ensures Recorded(old(State()), State(), me, base, now)
    {
      hide Score, Recorded;
      RecordedAtFirst(State(), me, base, now);
      while |bundles[me]| < maxBundle
        invariant me in bundles && bundles == old(bundles)[me := bundles[me]]
        invariant forall t :: t in tasks ==> t in winningBids
        invariant Fill(base, tasks, winningBids, bundles[me], maxBundle)
                  == Fill(base, tasks, old(winningBids), old(bundles[me]), maxBundle)
        invariant Recorded(old(State()), State(), me, base, now)
        decreases maxBundle - |bundles[me]|
      {
        var best, bestScore := BestTask(tasks, base);
        if best.None? || bestScore <= 0.0 { break; }
        RecordedStep(old(State()), State(), me, base, now, best.value);
        var t := best.value;
        bundles := bundles[me := bundles[me] + [t]];
        winningBids := winningBids[t := bestScore];
        winningAgents := winningAgents[t := Some(me)];
        bidTimestamps := bidTimestamps[t := now];
      }
    }

    /** The inner loop: the best open task for the next position. */
    method BestTask(tasks: seq<Task>, base: Task -> real) returns (best: Option<Task>, bestScore: real)
      requires me in bundles && forall t :: t in tasks ==> t in winningBids
      ensures best == Pick(base, tasks, winningBids, bundles[me], |tasks|)
      ensures best.Some? ==> bestScore == Score(base(best.value), |bundles[me]|)
    {
      hide Score;
      best, bestScore := None, -1.0;
      var position := |bundles[me]|;
      for i := 0 to |tasks|
        invariant best == Pick(base, tasks, winningBids, bundles[me], i)
        invariant bestScore == if best.None? then -1.0 else Score(base(best.value), position)
      {
        var t := tasks[i];
        if t in bundles[me] { continue; }
        var score := Score(base(t), position);
        if score > winningBids[t] && score > bestScore {
          best, bestScore := Some(t), score;
        }
      }
    }

    /** Who claims the task, in the order of the drones. */
    method Claimants(fleet: Fleet, tid: Task) returns (cs: seq<Claim>)
      requires Covers(fleet, bundles)
      ensures cs == Claims(fleet, bundles, tid, |fleet.drones|)
    {
      hide Score, Index;
      cs := [];
      for i := 0 to |fleet.drones|
        invariant cs == Claims(fleet, bundles, tid, i)
      {
        var d := fleet.drones[i];
        if tid !in bundles[d] { continue; }
        var position := Index(bundles[d], tid);
        cs := cs + [Claim(d, Score(fleet.base(d, tid), position), fleet.stamp(d))];
      }
    }

    /** Every claimant the winner beats gives the task up. */
    method StripLosers(fleet: Fleet, cs: seq<Claim>, w: Claim, tid: Task) returns (removed: bool)
      requires Fit(fleet, State()) && cs == Claims(fleet, bundles, tid, |fleet.drones|)
      requires forall c :: c in cs ==> c.drone in bundles && tid in bundles[c.drone]
      requires forall i, j :: 0 <= i < j < |cs| ==> cs[i].drone != cs[j].drone
      modifies this`bundles
      ensures bundles == Stripped(old(bundles), cs, w, tid, |cs|) && removed == AnyBeaten(cs, w)
    {
      hide Beats, Remove, Claims, Fit;
      removed := false;
      for i := 0 to |cs|
        invariant bundles == Stripped(old(bundles), cs, w, tid, i)
        invariant removed == exists j :: 0 <= j < i && cs[j].drone != w.drone && Beats(w, cs[j])
      {
        var c := cs[i];
        assert c in cs;
        if c.drone == w.drone { continue; }
        if Beats(w, c) {
          bundles := bundles[c.drone := Remove(bundles[c.drone], tid)];
          removed := true;
        }
      }
    }

    /** One turn of the consensus loop. */
    method ResolveTask(fleet: Fleet, tid: Task, now: real) returns (changed: bool)
      requires Fit(fleet, State()) && tid in winningAgents
      modifies this
      ensures (State(), changed) == Resolve(fleet, old(State()), tid, now)
    {
      hide Stripped, Claims, Top, AnyBeaten, Fit, ClaimOf;
      FitParts(fleet, State());
      var cs := Claimants(fleet, tid);
      if |cs| <= 1 { return false; }
      ClaimsReady(fleet, bundles, tid);
      var w := Top(cs, |cs|);
      changed := StripLosers(fleet, cs, w, tid);
      if winningAgents[tid] != Some(w.drone) {
        winningAgents := winningAgents[tid := Some(w.drone)];
        winningBids := winningBids[tid := w.score];
        bidTimestamps := bidTimestamps[tid := now];
        changed := true;
      }
    }

    /** `_consensus_phase`. */
    method ConsensusPhase(fleet: Fleet, order: seq<Task>, now: real) returns (changed: bool)
      requires Fit(fleet, State()) && forall t :: t in order ==> t in winningAgents
      modifies this
      ensures (State(), changed) == ResolveAll(fleet, old(State()), order, |order|, now)
    {
      hide Resolve, Fit;
      changed := false;
      for i := 0 to |order|
        invariant (State(), changed) == ResolveAll(fleet, old(State()), order, i, now)
      {
        var c := ResolveTask(fleet, order[i], now);
        changed := changed || c;
      }
    }

    /** One round of the loop in `run_allocation`: the own bundle becomes greedy, and stays what it
        was if it was greedy already; the consensus phase reports no change. */
    method Round(ids: seq<Task>, fleet: Fleet, mine: Task -> real, now: real) returns (changed: bool)
      requires Solo(fleet, me, bundles) && Open(ids, winningBids, bundles[me])
      requires forall t :: t in ids ==> t in winningAgents
      requires bundles[me] == [] || Greedy(mine, Elements(ids), maxBundle, bundles[me])
      modifies this
      ensures Solo(fleet, me, bundles) && Open(ids, winningBids, bundles[me])
      ensures forall t :: t in ids ==> t in winningAgents
      ensures Greedy(mine, Elements(ids), maxBundle, bundles[me]) && !changed
      ensures Greedy(mine, Elements(ids), maxBundle, old(bundles[me])) ==> bundles[me] == old(bundles[me])
    {
      hide Solo, Fit, Greedy, Fill, ResolveAll, Distinct, Open, Recorded;
      SoloParts(fleet, me, bundles);
      OpenListed(ids, winningBids, bundles[me]);
      EmptyBestFirst(mine, Elements(ids));
      if bundles[me] == [] {
        FillGreedy(mine, ids, winningBids, [], maxBundle);
      }
      if Greedy(mine, Elements(ids), maxBundle, bundles[me]) {
        FillIdle(mine, ids, winningBids, bundles[me], maxBundle);
      }
      GreedyDistinct(mine, Elements(ids), maxBundle, Fill(mine, ids, winningBids, bundles[me], maxBundle));
      SoloGrows(fleet, me, bundles, Fill(mine, ids, winningBids, bundles[me], maxBundle));
      ghost var was := State();
      BundlePhase(ids, mine, now);
      RecordedOpen(was, State(), me, mine, now, ids);
      SoloFit(fleet, me, State());
      SoloIdle(fleet, me, State(), ids, |ids|, now);
      changed := ConsensusPhase(fleet, ids, now);
    }

    /** `run_allocation`: at most three rounds, and no sequence of at most `maxBundle` different
        available tasks is worth more than the bundle returned. */
    method RunAllocation(available: seq<Task>, fleet: Fleet, mine: Task -> real, now: real)
      returns (bundle: seq<Task>, ghost rounds: nat)
      requires Distinct(fleet.drones)
      modifies this
      ensures available == [] || me !in fleet.drones ==> bundle == [] && rounds == 0
      ensures available != [] && me in fleet.drones ==> rounds <= 3
      ensures available != [] && me in fleet.drones ==> Greedy(mine, Elements(available), maxBundle, bundle)
      ensures available != [] && me in fleet.drones ==>
                forall s :: Distinct(s) && (forall t :: t in s ==> t in available) && |s| <= maxBundle ==>
                  Value(mine, s) <= Value(mine, bundle)
    {
      hide Solo, Greedy, Value, Distinct, Open, Elements, Keys, Covers;
      rounds := 0;
      if available == [] || me !in fleet.drones { return [], 0; }
      var ids := Keys(available);
      SameElements(ids, available);
      bundles := map d | d in fleet.drones :: [];
      winningBids := map t | t in ids :: -1.0;
      winningAgents := map t | t in ids :: None;
      bidTimestamps := map t | t in ids :: 0.0;
      SoloStart(fleet, me, bundles);
      OpenStart(ids, winningBids);
      var stable := 0;
      for n := 0 to MAX_ROUNDS
        invariant Solo(fleet, me, bundles) && me in bundles && rounds == n
        invariant Open(ids, winningBids, bundles[me]) && forall t :: t in ids ==> t in winningAgents
        invariant n - 1 <= stable < CONVERGENCE_ROUNDS
        invariant if n == 0 then bundles[me] == [] else Greedy(mine, Elements(ids), maxBundle, bundles[me])
      {
        var before := bundles[me];
        var changed := Round(ids, fleet, mine, now);
        SoloParts(fleet, me, bundles);
        rounds := n + 1;
        stable := if !changed && bundles[me] == before then stable + 1 else 0;
        if stable >= CONVERGENCE_ROUNDS { break; }
      }
      bundle := bundles[me];
      BundleOptimal(mine, available, maxBundle, bundle);
    }
  }

  /** `n` is `m` but for the tasks in `s`. */
  ghost predicate Elsewhere<V>(m: map<Task, V>, n: map<Task, V>, s: seq<Task>) {
    forall t :: t !in s ==> (t in n <==> t in m) && (t in m ==> n[t] == m[t])
  }

  /** The bundle of `me` has only grown; every task it took stands at the score of its place, under the
      name of `me` and with this time; every other task stands as it did. */
  ghost predicate Recorded(was: State, st: State, me: Drone, base: Task -> real, now: real) {
    && me in was.bundles && me in st.bundles && was.bundles[me] <= st.bundles[me]
    && var b, from := st.bundles[me], |was.bundles[me]|;
       && (forall i :: from <= i < |b| ==> b[i] !in b[..i])
       && (forall i :: from <= i < |b| ==> b[i] in st.bids && st.bids[b[i]] == Score(base(b[i]), i))
       && (forall i :: from <= i < |b| ==> b[i] in st.agents && st.agents[b[i]] == Some(me))
       && (forall i :: from <= i < |b| ==> b[i] in st.stamps && st.stamps[b[i]] == now)
       && Elsewhere(was.bids, st.bids, b[from..]) && Elsewhere(was.agents, st.agents, b[from..])
       && Elsewhere(was.stamps, st.stamps, b[from..])
  }

  lemma RecordedAtFirst(st: State, me: Drone, base: Task -> real, now: real)
    requires me in st.bundles
    ensures Recorded(st, st, me, base, now)
  {
  }

  lemma ElsewhereStep<V>(m: map<Task, V>, n: map<Task, V>, b: seq<Task>, from: nat, t: Task, v: V)
    requires from <= |b| && Elsewhere(m, n, b[from..])
    ensures Elsewhere(m, n[t := v], (b + [t])[from..])
  {
    assert (b + [t])[from..] == b[from..] + [t];
  }

  lemma RecordedStep(was: State, st: State, me: Drone, base: Task -> real, now: real, t: Task)
    requires Recorded(was, st, me, base, now) && t !in st.bundles[me]
    ensures var b := st.bundles[me];
            Recorded(was, State(st.bundles[me := b + [t]], st.bids[t := Score(base(t), |b|)], st.agents[t := Some(me)],
                                st.stamps[t := now]), me, base, now)
  {
    hide Score, Elsewhere;
    var b, from := st.bundles[me], |was.bundles[me]|;
    ElsewhereStep(was.bids, st.bids, b, from, t, Score(base(t), |b|));
    ElsewhereStep(was.agents, st.agents, b, from, t, Some(me));
    ElsewhereStep(was.stamps, st.stamps, b, from, t, now);
    forall i | from <= i < |b| ensures (b + [t])[i] != t && (b + [t])[..i] == b[..i] {
    }
    assert (b + [t])[..|b|] == b;
  }

  lemma RecordedOpen(was: State, st: State, me: Drone, base: Task -> real, now: real, tasks: seq<Task>)
    requires Recorded(was, st, me, base, now) && Open(tasks, was.bids, was.bundles[me])
    ensures Open(tasks, st.bids, st.bundles[me]) && forall t :: t in was.agents ==> t in st.agents
  {
    hide Score;
    var b, from := st.bundles[me], |was.bundles[me]|;
    assert b == was.bundles[me] + b[from..];
    forall t | t in b[from..] ensures t in st.bids && t in st.agents {
      var i :| 0 <= i < |b[from..]| && b[from..][i] == t;
      assert b[from + i] == t;
    }
  }

  lemma SameElements(a: seq<Task>, b: seq<Task>)
    requires forall t :: t in a <==> t in b
    ensures Elements(a) == Elements(b)
  {
    assert forall t :: t in Elements(a) <==> t in Elements(b);
  }

  lemma ElementsHold(tasks: seq<Task>, s: seq<Task>)
    requires forall t :: t in s ==> t in tasks
    ensures forall t :: t in s ==> t in Elements(tasks)
  {
  }

  lemma BundleOptimal(base: Task -> real, available: seq<Task>, max: int, bundle: seq<Task>)
    requires Greedy(base, Elements(available), max, bundle)
    ensures forall s :: Distinct(s) && (forall t :: t in s ==> t in available) && |s| <= max ==>
              Value(base, s) <= Value(base, bundle)
  {
    hide Greedy, Value, Distinct, Elements;
    forall s | Distinct(s) && (forall t :: t in s ==> t in available) && |s| <= max
      ensures Value(base, s) <= Value(base, bundle)
    {
      ElementsHold(available, s);
      GreedyOptimal(base, Elements(available), max, bundle, s);
    }
  }

  lemma OpenListed(ids: seq<Task>, bids: map<Task, real>, bundle: seq<Task>)
    requires Open(ids, bids, bundle)
    ensures forall t :: t in ids ==> t in bids
  {
  }

  lemma OpenStart(ids: seq<Task>, bids: map<Task, real>)
    requires forall t :: t in ids ==> t in bids && bids[t] == -1.0
    ensures Open(ids, bids, [])
  {
  }

  lemma SoloStart(fleet: Fleet, me: Drone, bundles: Holdings)
    requires Distinct(fleet.drones) && me in fleet.drones
    requires forall d :: d in fleet.drones ==> d in bundles && bundles[d] == []
    ensures Solo(fleet, me, bundles)
  {
  }

  lemma SoloParts(fleet: Fleet, me: Drone, bundles: Holdings)
    requires Solo(fleet, me, bundles)
    ensures me in bundles && me in fleet.drones && Covers(fleet, bundles)
  {
  }

  lemma EmptyBestFirst(base: Task -> real, tasks: set<Task>)
    ensures BestFirst(base, tasks, [])
  {
  }

  /** Only `me` holds anything: the others' bundles are not known here. */
  ghost predicate Solo(fleet: Fleet, me: Drone, bundles: Holdings) {
    && me in fleet.drones && Covers(fleet, bundles) && Distinct(fleet.drones) && Distinct(bundles[me])
    && (forall d :: d in fleet.drones && d != me ==> bundles[d] == [])
  }

  lemma SoloClaims(fleet: Fleet, me: Drone, bundles: Holdings, tid: Task)
    requires Solo(fleet, me, bundles)
    ensures |Claims(fleet, bundles, tid, |fleet.drones|)| <= 1
  {
    hide Claims, ClaimOf;
    var cs := Claims(fleet, bundles, tid, |fleet.drones|);
    ClaimsReady(fleet, bundles, tid);
    if |cs| > 1 {
      assert cs[0] in cs && cs[1] in cs;
    }
  }

  lemma SoloFit(fleet: Fleet, me: Drone, st: State)
    requires Solo(fleet, me, st.bundles)
    ensures Fit(fleet, st)
  {
  }

  /** With a single bidder the consensus phase has nothing to do. */
  lemma {:induction false} SoloIdle(fleet: Fleet, me: Drone, st: State, order: seq<Task>, k: nat, now: real)
    requires Solo(fleet, me, st.bundles) && Fit(fleet, st) && k <= |order| && forall t :: t in order ==> t in st.agents
    ensures ResolveAll(fleet, st, order, k, now) == (st, false)
  {
    hide Solo, Fit, Claims, Stripped, Top;
    if k > 0 {
      SoloIdle(fleet, me, st, order, k - 1, now);
      SoloClaims(fleet, me, st.bundles, order[k - 1]);
    }
  }

  lemma SoloGrows(fleet: Fleet, me: Drone, bundles: Holdings, b: seq<Task>)
    requires Solo(fleet, me, bundles) && Distinct(b)
    ensures Solo(fleet, me, bundles[me := b])
  {
  }

  lemma GreedyDistinct(base: Task -> real, tasks: set<Task>, max: int, s: seq<Task>)
    requires Greedy(base, tasks, max, s)
    ensures Distinct(s)
  {
  }

  lemma FitParts(fleet: Fleet, st: State)
    requires Fit(fleet, st)
    ensures Distinct(fleet.drones) && Covers(fleet, st.bundles)
  {
  }
}
