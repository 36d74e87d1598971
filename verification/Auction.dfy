/** The task auction of cbba.py: building one's own bundle, resolving conflicting claims, and the
    rounds in which the two alternate. */
module Auction {
  import opened Arithmetic
  import opened Bundles
  import opened Sequences
  import opened Wrappers

  type Drone = int

  /** The executors in the order they are gone through, what each task is worth to each of them
      in first place, and the time stamps of their snapshots. */
  datatype Fleet = Fleet(drones: seq<Drone>, base: (Drone, Task) -> real, stamp: Drone -> real)

  type Holdings = map<Drone, seq<Task>>

  predicate Covers(fleet: Fleet, bundles: Holdings) {
    forall d :: d in fleet.drones ==> d in bundles
  }

  // ---------------------------------------------------------------- one task's claims

  function Index(s: seq<Task>, x: Task): (i: nat)
    requires x in s
    ensures i < |s| && s[i] == x && x !in s[..i]
  {
    if s[0] == x then 0 else 1 + Index(s[1..], x)
  }

  /** `list.remove`: the first occurrence goes. */
  function Remove(s: seq<Task>, x: Task): seq<Task>
    requires x in s
  {
    Without(s, Index(s, x))
  }

  datatype Claim = Claim(drone: Drone, score: real, stamp: real)

  function ClaimOf(fleet: Fleet, bundles: Holdings, tid: Task, d: Drone): Claim
    requires d in bundles && tid in bundles[d]
  {
    Claim(d, Score(fleet.base(d, tid), Index(bundles[d], tid)), fleet.stamp(d))
  }

  /** The claims of the first `k` drones. */
  function Claims(fleet: Fleet, bundles: Holdings, tid: Task, k: nat): seq<Claim>
    requires Covers(fleet, bundles) && k <= |fleet.drones|
  {
    if k == 0 then []
    else
      var cs, d := Claims(fleet, bundles, tid, k - 1), fleet.drones[k - 1];
      if tid in bundles[d] then cs + [ClaimOf(fleet, bundles, tid, d)] else cs
  }

  predicate Beats(a: Claim, b: Claim) {
    b.score < a.score || (b.score == a.score && b.stamp < a.stamp)
  }

  /** `max` by score and stamp: the first of the best. */
  function Top(cs: seq<Claim>, k: nat): Claim
    requires 0 < k <= |cs|
  {
    if k == 1 then cs[0] else var w := Top(cs, k - 1); if Beats(cs[k - 1], w) then cs[k - 1] else w
  }

  /** The bundles after the first `k` claims have been held against the winner. */
  function Stripped(bundles: Holdings, cs: seq<Claim>, w: Claim, tid: Task, k: nat): Holdings
    requires k <= |cs| && (forall c :: c in cs ==> c.drone in bundles && tid in bundles[c.drone])
    requires forall i, j :: 0 <= i < j < |cs| ==> cs[i].drone != cs[j].drone
    ensures var r := Stripped(bundles, cs, w, tid, k);
            r.Keys == bundles.Keys && forall i :: k <= i < |cs| ==> r[cs[i].drone] == bundles[cs[i].drone]
  {
    if k == 0 then bundles
    else
      var r, c := Stripped(bundles, cs, w, tid, k - 1), cs[k - 1];
      assert c in cs;
      if c.drone != w.drone && Beats(w, c) then r[c.drone := Remove(r[c.drone], tid)] else r
  }

  lemma PrefixGrows<T>(s: seq<T>, k: nat)
    requires 0 < k <= |s|
    ensures s[..k] == s[..k - 1] + [s[k - 1]] && (forall x :: x in s[..k] <==> x in s[..k - 1] || x == s[k - 1])
    ensures Distinct(s) ==> s[k - 1] !in s[..k - 1]
  {
  }

  /** One claim for each of the drones `ds` that holds the task, and no other. */
  predicate OneEach(fleet: Fleet, bundles: Holdings, tid: Task, ds: seq<Drone>, cs: seq<Claim>) {
    && (forall i :: 0 <= i < |cs| ==> cs[i].drone in ds && cs[i].drone in bundles && tid in bundles[cs[i].drone])
    && (forall i :: 0 <= i < |cs| ==> cs[i] == ClaimOf(fleet, bundles, tid, cs[i].drone))
    && (forall i, j :: 0 <= i < j < |cs| ==> cs[i].drone != cs[j].drone)
    && (forall d :: d in ds && d in bundles && tid in bundles[d] ==> ClaimOf(fleet, bundles, tid, d) in cs)
  }

  lemma OneMore(fleet: Fleet, bundles: Holdings, tid: Task, ds: seq<Drone>, cs: seq<Claim>, d: Drone)
    requires OneEach(fleet, bundles, tid, ds, cs) && d !in ds && d in bundles
    ensures var next := if tid in bundles[d] then cs + [ClaimOf(fleet, bundles, tid, d)] else cs;
            OneEach(fleet, bundles, tid, ds + [d], next)
  {
    hide ClaimOf;
    if tid in bundles[d] { ClaimDrone(fleet, bundles, tid, d); }
    forall i | 0 <= i < |cs| ensures cs[i].drone != d {
    }
  }

  lemma ClaimDrone(fleet: Fleet, bundles: Holdings, tid: Task, d: Drone)
    requires d in bundles && tid in bundles[d]
    ensures ClaimOf(fleet, bundles, tid, d).drone == d
  {
  }

  lemma {:induction false} ClaimsFacts(fleet: Fleet, bundles: Holdings, tid: Task, k: nat)
    requires Covers(fleet, bundles) && k <= |fleet.drones| && Distinct(fleet.drones)
    ensures OneEach(fleet, bundles, tid, fleet.drones[..k], Claims(fleet, bundles, tid, k))
  {
    hide Score, Index, ClaimOf, Distinct;
    if k > 0 {
      ClaimsFacts(fleet, bundles, tid, k - 1);
      PrefixGrows(fleet.drones, k);
      OneMore(fleet, bundles, tid, fleet.drones[..k - 1], Claims(fleet, bundles, tid, k - 1), fleet.drones[k - 1]);
    }
  }

  lemma {:induction false} TopFacts(cs: seq<Claim>, k: nat)
    requires 0 < k <= |cs|
    ensures Top(cs, k) in cs[..k] && forall i :: 0 <= i < k ==> !Beats(cs[i], Top(cs, k))
  {
    if k > 1 {
      TopFacts(cs, k - 1);
      assert cs[..k] == cs[..k - 1] + [cs[k - 1]];
    } else {
      assert cs[..1] == [cs[0]];
    }
  }

  /** The drone has a claim among the first `k` that the winner beats. */
  predicate Loses(cs: seq<Claim>, w: Claim, k: nat, d: Drone)
    requires k <= |cs|
  {
    exists c :: c in cs[..k] && c.drone == d && d != w.drone && Beats(w, c)
  }

  lemma LosesStep(cs: seq<Claim>, w: Claim, k: nat, d: Drone)
    requires 0 < k <= |cs|
    ensures var c := cs[k - 1];
            Loses(cs, w, k, d) <==> Loses(cs, w, k - 1, d) || (c.drone == d && d != w.drone && Beats(w, c))
  {
    hide Beats;
    PrefixGrows(cs, k);
  }

  lemma LosesOnce(cs: seq<Claim>, w: Claim, k: nat, d: Drone)
    requires 0 < k <= |cs| && cs[k - 1].drone == d
    requires forall i, j :: 0 <= i < j < |cs| ==> cs[i].drone != cs[j].drone
    ensures !Loses(cs, w, k - 1, d)
  {
    hide Beats;
  }

  /** Who keeps the task. */
  lemma {:induction false} StrippedFacts(bundles: Holdings, cs: seq<Claim>, w: Claim, tid: Task, k: nat, d: Drone)
    requires k <= |cs| && (forall c :: c in cs ==> c.drone in bundles && tid in bundles[c.drone])
    requires forall i, j :: 0 <= i < j < |cs| ==> cs[i].drone != cs[j].drone
    requires d in bundles
    ensures Loses(cs, w, k, d) ==> tid in bundles[d]
    ensures Stripped(bundles, cs, w, tid, k)[d] == if Loses(cs, w, k, d) then Remove(bundles[d], tid) else bundles[d]
  {
    hide Beats, Remove, Loses;
    if k == 0 {
      NobodyLoses(cs, w, d);
    } else {
      StrippedFacts(bundles, cs, w, tid, k - 1, d);
      LosesStep(cs, w, k, d);
      assert cs[k - 1] in cs;
      if cs[k - 1].drone == d { LosesOnce(cs, w, k, d); }
    }
  }

  lemma NobodyLoses(cs: seq<Claim>, w: Claim, d: Drone)
    ensures !Loses(cs, w, 0, d)
  {
  }

  // ---------------------------------------------------------------- one task resolved

  /** What the auction keeps: bundles, and for each task the winning bid, its bidder and its time. */
  datatype State = State(bundles: Holdings, bids: map<Task, real>, agents: map<Task, Option<Drone>>,
                         stamps: map<Task, real>)

  ghost predicate Fit(fleet: Fleet, st: State) {
    && Distinct(fleet.drones) && Covers(fleet, st.bundles)
    && (forall d :: d in fleet.drones ==> Distinct(st.bundles[d]))
  }

  predicate AnyBeaten(cs: seq<Claim>, w: Claim) {
    exists i :: 0 <= i < |cs| && cs[i].drone != w.drone && Beats(w, cs[i])
  }

  /** One turn of the loop over tasks: state and whether anything changed. */
  function Resolve(fleet: Fleet, st: State, tid: Task, now: real): (State, bool)
    requires Distinct(fleet.drones) && Covers(fleet, st.bundles) && tid in st.agents
  {
    var cs := Claims(fleet, st.bundles, tid, |fleet.drones|);
    if |cs| <= 1 then (st, false)
    else
      ClaimsReady(fleet, st.bundles, tid);
      var w := Top(cs, |cs|);
      var next := st.(bundles := Stripped(st.bundles, cs, w, tid, |cs|));
      if st.agents[tid] != Some(w.drone)
      then
        var won := next.(bids := st.bids[tid := w.score], agents := st.agents[tid := Some(w.drone)],
                         stamps := st.stamps[tid := now]);
        (won, true)
      else (next, AnyBeaten(cs, w))
  }

  lemma ClaimsReady(fleet: Fleet, bundles: Holdings, tid: Task)
    requires Covers(fleet, bundles) && Distinct(fleet.drones)
    ensures var cs := Claims(fleet, bundles, tid, |fleet.drones|);
            && (forall c :: c in cs ==> c.drone in bundles && tid in bundles[c.drone] && c.drone in fleet.drones
                                        && c == ClaimOf(fleet, bundles, tid, c.drone))
            && (forall i, j :: 0 <= i < j < |cs| ==> cs[i].drone != cs[j].drone)
            && (forall d :: d in fleet.drones && tid in bundles[d] ==> ClaimOf(fleet, bundles, tid, d) in cs)
  {
    hide Claims, ClaimOf;
    ClaimsFacts(fleet, bundles, tid, |fleet.drones|);
    assert fleet.drones[..|fleet.drones|] == fleet.drones;
  }

  lemma RemoveFacts(s: seq<Task>, x: Task)
    requires Distinct(s) && x in s
    ensures Distinct(Remove(s, x)) && forall t :: t in Remove(s, x) <==> t in s && t != x
  {
    DistinctWithout(s, Index(s, x));
  }

  /** Exactly those lose the task whose claim the winner beats. */
  lemma ResolveDrone(fleet: Fleet, st: State, tid: Task, now: real, d: Drone)
    requires Fit(fleet, st) && tid in st.agents && d in fleet.drones
    ensures var cs, next := Claims(fleet, st.bundles, tid, |fleet.drones|), Resolve(fleet, st, tid, now).0;
            && d in next.bundles
            && var lost := |cs| > 1 && tid in st.bundles[d] && Beats(Top(cs, |cs|), ClaimOf(fleet, st.bundles, tid, d));
               next.bundles[d] == if lost then Remove(st.bundles[d], tid) else st.bundles[d]
  {
    hide Stripped, Claims, Remove, ClaimOf, Score;
    var cs := Claims(fleet, st.bundles, tid, |fleet.drones|);
    ClaimsReady(fleet, st.bundles, tid);
    if |cs| > 1 {
      var w := Top(cs, |cs|);
      StrippedFacts(st.bundles, cs, w, tid, |cs|, d);
      assert cs[..|cs|] == cs;
      TopFacts(cs, |cs|);
      OwnClaim(fleet, st.bundles, tid, cs, w, d);
    }
  }

  lemma OwnClaim(fleet: Fleet, bundles: Holdings, tid: Task, cs: seq<Claim>, w: Claim, d: Drone)
    requires Covers(fleet, bundles) && d in fleet.drones && w in cs
    requires forall c :: c in cs ==> c.drone in bundles && tid in bundles[c.drone]
    requires forall c :: c in cs ==> c == ClaimOf(fleet, bundles, tid, c.drone)
    requires tid in bundles[d] ==> ClaimOf(fleet, bundles, tid, d) in cs
    ensures (exists c :: c in cs && c.drone == d && d != w.drone && Beats(w, c))
            <==> tid in bundles[d] && Beats(w, ClaimOf(fleet, bundles, tid, d))
  {
    hide Score, Index;
    if tid in bundles[d] && Beats(w, ClaimOf(fleet, bundles, tid, d)) {
      var c := ClaimOf(fleet, bundles, tid, d);
      assert c in cs && c.drone == d;
    }
  }

  /** The other tasks stay where they are, and the bundles stay free of duplicates. */
  lemma ResolveOthers(fleet: Fleet, st: State, tid: Task, now: real)
    requires Fit(fleet, st) && tid in st.agents
    ensures var next := Resolve(fleet, st, tid, now).0;
            && Fit(fleet, next) && next.agents.Keys == st.agents.Keys
            && forall d, t :: d in fleet.drones && t != tid ==> (t in next.bundles[d] <==> t in st.bundles[d])
  {
    hide Claims, Remove, ClaimOf, Top;
    var next := Resolve(fleet, st, tid, now).0;
    forall d | d in fleet.drones
      ensures d in next.bundles && Distinct(next.bundles[d])
      ensures forall t :: t != tid ==> (t in next.bundles[d] <==> t in st.bundles[d])
    {
      ResolveDrone(fleet, st, tid, now, d);
      if tid in st.bundles[d] { RemoveFacts(st.bundles[d], tid); }
    }
  }

  /** A holder of the task whose claim no other claim beats. */
  predicate Unbeatable(fleet: Fleet, bundles: Holdings, tid: Task, d: Drone)
    requires Covers(fleet, bundles)
  {
    && d in fleet.drones && tid in bundles[d]
    && (forall e :: e in fleet.drones && tid in bundles[e] ==>
          !Beats(ClaimOf(fleet, bundles, tid, e), ClaimOf(fleet, bundles, tid, d)))
  }

  /** A drone that holds the task after its turn is one that no claimant beats. */
  lemma ResolveKeeps(fleet: Fleet, st: State, tid: Task, now: real, d: Drone)
    requires Fit(fleet, st) && tid in st.agents && d in fleet.drones
    ensures var next := Resolve(fleet, st, tid, now).0;
            && d in next.bundles
            && (tid in next.bundles[d] <==> Unbeatable(fleet, st.bundles, tid, d))
  {
    hide Claims, Remove, ClaimOf, Top, Resolve;
    var cs := Claims(fleet, st.bundles, tid, |fleet.drones|);
    ResolveDrone(fleet, st, tid, now, d);
    if tid in st.bundles[d] { RemoveFacts(st.bundles[d], tid); }
    ClaimsReady(fleet, st.bundles, tid);
    if |cs| > 1 {
      TopFacts(cs, |cs|);
      assert cs[..|cs|] == cs;
      if tid in st.bundles[d] { Unbeaten(fleet, st.bundles, tid, cs, Top(cs, |cs|), d); }
    } else if tid in st.bundles[d] {
      SoleClaim(fleet, st.bundles, tid, cs, d);
    }
  }

  /** Being beaten by the winner and being beaten by anyone are the same. */
  lemma Unbeaten(fleet: Fleet, bundles: Holdings, tid: Task, cs: seq<Claim>, w: Claim, d: Drone)
    requires Covers(fleet, bundles) && d in fleet.drones && tid in bundles[d] && w in cs
    requires forall i :: 0 <= i < |cs| ==> !Beats(cs[i], w)
    requires forall c :: c in cs ==> c.drone in fleet.drones && c.drone in bundles && tid in bundles[c.drone]
    requires forall c :: c in cs ==> c == ClaimOf(fleet, bundles, tid, c.drone)
    requires forall e :: e in fleet.drones && tid in bundles[e] ==> ClaimOf(fleet, bundles, tid, e) in cs
    ensures Beats(w, ClaimOf(fleet, bundles, tid, d))
            <==> exists e :: e in fleet.drones && tid in bundles[e]
                             && Beats(ClaimOf(fleet, bundles, tid, e), ClaimOf(fleet, bundles, tid, d))
  {
    hide ClaimOf;
    forall e | && e in fleet.drones && tid in bundles[e]
               && Beats(ClaimOf(fleet, bundles, tid, e), ClaimOf(fleet, bundles, tid, d))
      ensures Beats(w, ClaimOf(fleet, bundles, tid, d))
    {
      var c := ClaimOf(fleet, bundles, tid, e);
      var i :| 0 <= i < |cs| && cs[i] == c;
    }
  }

  lemma SoleClaim(fleet: Fleet, bundles: Holdings, tid: Task, cs: seq<Claim>, d: Drone)
    requires Covers(fleet, bundles) && d in fleet.drones && tid in bundles[d] && |cs| <= 1
    requires forall e :: e in fleet.drones && tid in bundles[e] ==> ClaimOf(fleet, bundles, tid, e) in cs
    ensures forall e :: e in fleet.drones && tid in bundles[e] ==>
                        !Beats(ClaimOf(fleet, bundles, tid, e), ClaimOf(fleet, bundles, tid, d))
  {
    hide ClaimOf;
    forall e | e in fleet.drones && tid in bundles[e]
      ensures ClaimOf(fleet, bundles, tid, e) == ClaimOf(fleet, bundles, tid, d)
    {
      assert ClaimOf(fleet, bundles, tid, e) == cs[0] == ClaimOf(fleet, bundles, tid, d);
    }
  }

  /** What a task is worth in a place of a drone's bundle: each place further back counts seven tenths. */
  function Bid(fleet: Fleet, d: Drone, tid: Task, p: nat): real {
    fleet.base(d, tid) * Power(0.7, p)
  }

  /** The claim of a holder, wherever in its bundle the task is. */
  lemma ClaimAt(fleet: Fleet, bundles: Holdings, tid: Task, d: Drone, p: nat)
    requires d in bundles && Distinct(bundles[d]) && p < |bundles[d]| && bundles[d][p] == tid
    ensures ClaimOf(fleet, bundles, tid, d) == Claim(d, Bid(fleet, d, tid, p), fleet.stamp(d))
  {
    var i := Index(bundles[d], tid);
  }

  predicate HoldsAt(fleet: Fleet, bundles: Holdings, e: Drone, k: nat, tid: Task) {
    e in fleet.drones && e in bundles && k < |bundles[e]| && bundles[e][k] == tid
  }

  /** Who keeps a task, by place, worth and time: of all that hold it, those that nobody outbids, and nobody
      equals with a later snapshot. */
  lemma KeeperIff(fleet: Fleet, st: State, tid: Task, now: real, d: Drone, p: nat)
    requires Fit(fleet, st) && tid in st.agents && HoldsAt(fleet, st.bundles, d, p, tid)
    ensures var next := Resolve(fleet, st, tid, now).0;
            && d in next.bundles
            && (tid in next.bundles[d] <==>
                  forall e, k | HoldsAt(fleet, st.bundles, e, k, tid) ::
                    || Bid(fleet, e, tid, k) < Bid(fleet, d, tid, p)
                    || (Bid(fleet, e, tid, k) == Bid(fleet, d, tid, p) && fleet.stamp(e) <= fleet.stamp(d)))
  {
    hide Resolve, ClaimOf, Bid;
    ResolveKeeps(fleet, st, tid, now, d);
    forall e, k | HoldsAt(fleet, st.bundles, e, k, tid)
      ensures ClaimOf(fleet, st.bundles, tid, e) == Claim(e, Bid(fleet, e, tid, k), fleet.stamp(e))
    {
      ClaimAt(fleet, st.bundles, tid, e, k);
    }
    forall e | e in fleet.drones && tid in st.bundles[e]
      ensures HoldsAt(fleet, st.bundles, e, Index(st.bundles[e], tid), tid)
    {
    }
  }

  // ---------------------------------------------------------------- when a conflict is settled

  /** At most one drone holds the task. */
  predicate Exclusive(fleet: Fleet, bundles: Holdings, tid: Task)
    requires Covers(fleet, bundles)
  {
    forall d, e :: d in fleet.drones && e in fleet.drones && tid in bundles[d] && tid in bundles[e] ==> d == e
  }

  predicate Held(fleet: Fleet, bundles: Holdings, tid: Task)
    requires Covers(fleet, bundles)
  {
    exists d :: d in fleet.drones && tid in bundles[d]
  }

  /** Two holders of the task whose claims nobody beats: their scores and stamps are the same. */
  predicate Tied(fleet: Fleet, bundles: Holdings, tid: Task, d: Drone, e: Drone)
    requires Covers(fleet, bundles)
  {
    d != e && Unbeatable(fleet, bundles, tid, d) && Unbeatable(fleet, bundles, tid, e)
  }

  /** After its turn a task has at most one holder exactly when its best claim was not tied; and a
      task that was held is held still. */
  lemma SettledIff(fleet: Fleet, st: State, tid: Task, now: real)
    requires Fit(fleet, st) && tid in st.agents
    ensures var next := Resolve(fleet, st, tid, now).0;
            && Fit(fleet, next)
            && (Exclusive(fleet, next.bundles, tid) <==> forall d, e :: !Tied(fleet, st.bundles, tid, d, e))
            && (Held(fleet, next.bundles, tid) <==> Held(fleet, st.bundles, tid))
  {
    hide Resolve, Unbeatable;
    var next := Resolve(fleet, st, tid, now).0;
    ResolveOthers(fleet, st, tid, now);
    forall d | d in fleet.drones ensures tid in next.bundles[d] <==> Unbeatable(fleet, st.bundles, tid, d) {
      ResolveKeeps(fleet, st, tid, now, d);
    }
    UnbeatableHolds(fleet, st.bundles, tid);
    if Held(fleet, st.bundles, tid) {
      BestClaim(fleet, st.bundles, tid);
    }
    forall d, e ensures Tied(fleet, st.bundles, tid, d, e)
      <==> d != e && d in fleet.drones && e in fleet.drones && tid in next.bundles[d] && tid in next.bundles[e] {
    }
  }

  lemma UnbeatableHolds(fleet: Fleet, bundles: Holdings, tid: Task)
    requires Covers(fleet, bundles)
    ensures forall d :: Unbeatable(fleet, bundles, tid, d) ==> d in fleet.drones && tid in bundles[d]
  {
    hide Beats, ClaimOf;
  }

  /** Among the holders of a task one is beaten by none. */
  lemma BestClaim(fleet: Fleet, bundles: Holdings, tid: Task)
    requires Covers(fleet, bundles) && Distinct(fleet.drones) && Held(fleet, bundles, tid)
    ensures exists d :: Unbeatable(fleet, bundles, tid, d)
  {
    hide Claims, ClaimOf, Beats;
    var cs := Claims(fleet, bundles, tid, |fleet.drones|);
    ClaimsReady(fleet, bundles, tid);
    TopFacts(cs, |cs|);
    assert cs[..|cs|] == cs;
    var d := Top(cs, |cs|).drone;
    forall e | e in fleet.drones && tid in bundles[e]
      ensures !Beats(ClaimOf(fleet, bundles, tid, e), ClaimOf(fleet, bundles, tid, d))
    {
      var i :| 0 <= i < |cs| && cs[i] == ClaimOf(fleet, bundles, tid, e);
    }
    assert Unbeatable(fleet, bundles, tid, d);
  }

  // ---------------------------------------------------------------- the whole consensus phase

  /** After the first `k` tasks. */
  function ResolveAll(fleet: Fleet, st: State, order: seq<Task>, k: nat, now: real): (r: (State, bool))
    requires Fit(fleet, st) && k <= |order| && forall t :: t in order ==> t in st.agents
    ensures Fit(fleet, r.0) && r.0.agents.Keys == st.agents.Keys
  {
    if k == 0 then (st, false)
    else
      var before := ResolveAll(fleet, st, order, k - 1, now);
      ResolveOthers(fleet, before.0, order[k - 1], now);
      var step := Resolve(fleet, before.0, order[k - 1], now);
      (step.0, before.1 || step.1)
  }

  /** The elements of `s` that are in `kept`, in order. */
  function Keep(s: seq<Task>, kept: set<Task>): (r: seq<Task>)
    ensures forall t :: t in r <==> t in s && t in kept
    decreases |s|
  {
    if s == [] then []
    else
      assert forall t :: t in s <==> t in s[..|s| - 1] || t == s[|s| - 1];
      if s[|s| - 1] in kept then Keep(s[..|s| - 1], kept) + [s[|s| - 1]] else Keep(s[..|s| - 1], kept)
  }

  /** `b` is `a` with some tasks taken out and nothing moved. */
  predicate Thinned(a: seq<Task>, b: seq<Task>) {
    b == Keep(a, Elements(b))
  }

  lemma {:induction false} KeepKeep(s: seq<Task>, j: set<Task>, k: set<Task>)
    ensures Keep(Keep(s, j), k) == Keep(s, j * k)
    decreases |s|
  {
    if s != [] {
      var front, last := s[..|s| - 1], s[|s| - 1];
      KeepKeep(front, j, k);
      if last in j {
        assert (Keep(front, j) + [last])[..|Keep(front, j)|] == Keep(front, j);
      }
    }
  }

  lemma {:induction false} KeepAll(s: seq<Task>, k: set<Task>)
    requires forall t :: t in s ==> t in k
    ensures Keep(s, k) == s
    decreases |s|
  {
    if s != [] {
      var front, last := s[..|s| - 1], s[|s| - 1];
      assert last in s;
      assert last in k;
      forall t | t in front ensures t in k {
        assert t in s;
      }
      KeepAll(front, k);
      assert Keep(s, k) == front + [last];
    }
  }

  lemma {:induction false} KeepJoin(s: seq<Task>, t: seq<Task>, k: set<Task>)
    ensures Keep(s + t, k) == Keep(s, k) + Keep(t, k)
    decreases |t|
  {
    if t == [] {
      assert s + t == s;
    } else {
      KeepJoin(s, t[..|t| - 1], k);
      assert (s + t)[..|s + t| - 1] == s + t[..|t| - 1];
    }
  }

  lemma ThinnedTrans(a: seq<Task>, b: seq<Task>, c: seq<Task>)
    requires Thinned(a, b) && Thinned(b, c)
    ensures Thinned(a, c)
  {
    KeepKeep(a, Elements(b), Elements(c));
    assert forall t :: t in c ==> t in b;
    assert Elements(b) * Elements(c) == Elements(c);
  }

  lemma KeepAround(left: seq<Task>, x: Task, right: seq<Task>, k: set<Task>)
    requires (forall t :: t in left ==> t in k) && (forall t :: t in right ==> t in k) && x !in k
    ensures Keep(left + ([x] + right), k) == left + right
  {
    hide Keep;
    KeepJoin(left, [x] + right, k);
    KeepJoin([x], right, k);
    KeepAll(left, k);
    KeepAll(right, k);
    KeepNone(x, k);
    assert left + ([] + right) == left + right;
  }

  lemma KeepNone(x: Task, k: set<Task>)
    requires x !in k
    ensures Keep([x], k) == []
  {
  }

  lemma ThinnedRemove(s: seq<Task>, x: Task)
    requires Distinct(s) && x in s
    ensures Thinned(s, Remove(s, x))
  {
    hide Keep, Distinct;
    var i := Index(s, x);
    var left, right, r := s[..i], s[i + 1..], Remove(s, x);
    RemoveFacts(s, x);
    assert r == left + right && s == left + ([x] + right);
    assert forall t :: t in left ==> t in r;
    assert forall t :: t in right ==> t in r;
    KeepAround(left, x, right, Elements(r));
  }

  lemma ResolveThins(fleet: Fleet, st: State, tid: Task, now: real, d: Drone)
    requires Fit(fleet, st) && tid in st.agents && d in fleet.drones
    ensures var next := Resolve(fleet, st, tid, now).0; d in next.bundles && Thinned(st.bundles[d], next.bundles[d])
  {
    hide Resolve, Remove, Claims, ClaimOf, Beats, Top, Keep;
    ResolveDrone(fleet, st, tid, now, d);
    KeepAll(st.bundles[d], Elements(st.bundles[d]));
    if tid in st.bundles[d] { ThinnedRemove(st.bundles[d], tid); }
  }

  /** Bundles only shrink, and what is left keeps its order. */
  lemma {:induction false} PhaseThins(fleet: Fleet, st: State, order: seq<Task>, k: nat, now: real, d: Drone)
    requires Fit(fleet, st) && k <= |order| && (forall t :: t in order ==> t in st.agents) && d in fleet.drones
    ensures var end := ResolveAll(fleet, st, order, k, now).0;
            d in end.bundles && Thinned(st.bundles[d], end.bundles[d])
  {
    hide Resolve, Thinned;
    if k == 0 {
      ThinnedSelf(st.bundles[d]);
    } else {
      var before := ResolveAll(fleet, st, order, k - 1, now).0;
      PhaseThins(fleet, st, order, k - 1, now, d);
      ResolveThins(fleet, before, order[k - 1], now, d);
      ThinnedTrans(st.bundles[d], before.bundles[d], ResolveAll(fleet, st, order, k, now).0.bundles[d]);
    }
  }

  lemma ThinnedSelf(s: seq<Task>)
    ensures Thinned(s, s)
  {
    KeepAll(s, Elements(s));
  }

  /** No two executors' snapshots carry the same time. */
  ghost predicate StampsDiffer(fleet: Fleet) {
    forall d, e :: d in fleet.drones && e in fleet.drones && d != e ==> fleet.stamp(d) != fleet.stamp(e)
  }

  lemma NoTies(fleet: Fleet, bundles: Holdings, tid: Task)
    requires Covers(fleet, bundles) && StampsDiffer(fleet)
    ensures forall d, e :: !Tied(fleet, bundles, tid, d, e)
  {
    hide Score, Index;
  }

  lemma OthersHold(fleet: Fleet, st: State, tid: Task, now: real, t: Task)
    requires Fit(fleet, st) && tid in st.agents && t != tid
    ensures var next := Resolve(fleet, st, tid, now).0;
            && Fit(fleet, next) && (Held(fleet, next.bundles, t) <==> Held(fleet, st.bundles, t))
            && (Exclusive(fleet, st.bundles, t) ==> Exclusive(fleet, next.bundles, t))
  {
    hide Resolve;
    ResolveOthers(fleet, st, tid, now);
  }

  /** With distinct stamps one consensus phase leaves every task with at most one holder, and with
      exactly one if anyone held it. */
  lemma {:induction false} PhaseSettles(fleet: Fleet, st: State, order: seq<Task>, k: nat, now: real, t: Task)
    requires Fit(fleet, st) && k <= |order| && (forall x :: x in order ==> x in st.agents) && StampsDiffer(fleet)
    ensures var end := ResolveAll(fleet, st, order, k, now).0;
            && (t in order[..k] ==> Exclusive(fleet, end.bundles, t))
            && (Held(fleet, end.bundles, t) <==> Held(fleet, st.bundles, t))
  {
    hide Resolve, Exclusive, Held, Tied, StampsDiffer;
    if k > 0 {
      var before, tid := ResolveAll(fleet, st, order, k - 1, now).0, order[k - 1];
      PhaseSettles(fleet, st, order, k - 1, now, t);
      assert order[..k] == order[..k - 1] + [tid];
      if t == tid {
        NoTies(fleet, before.bundles, tid);
        SettledIff(fleet, before, tid, now);
      } else {
        OthersHold(fleet, before, tid, now, t);
      }
    }
  }

  /** The turns of other tasks do not change who holds this one. */
  lemma {:induction false} TurnsElsewhere(fleet: Fleet, st: State, order: seq<Task>, j: nat, k: nat, now: real, t: Task)
    requires Fit(fleet, st) && j <= k <= |order| && (forall x :: x in order ==> x in st.agents)
    requires forall i :: j <= i < k ==> order[i] != t
    ensures var a, b := ResolveAll(fleet, st, order, j, now).0, ResolveAll(fleet, st, order, k, now).0;
            forall d :: d in fleet.drones ==> (t in b.bundles[d] <==> t in a.bundles[d])
  {
    hide Resolve;
    if j < k {
      TurnsElsewhere(fleet, st, order, j, k - 1, now, t);
      ResolveOthers(fleet, ResolveAll(fleet, st, order, k - 1, now).0, order[k - 1], now);
    }
  }

  /** Over the whole phase, whatever the stamps: a task ends with at most one holder exactly when its best
      claim was not tied at its turn. */
  lemma PhaseSettledIff(fleet: Fleet, st: State, order: seq<Task>, k: nat, now: real)
    requires Fit(fleet, st) && k < |order| && (forall x :: x in order ==> x in st.agents) && Distinct(order)
    ensures var before, end := ResolveAll(fleet, st, order, k, now).0, ResolveAll(fleet, st, order, |order|, now).0;
            Exclusive(fleet, end.bundles, order[k]) <==> forall d, e :: !Tied(fleet, before.bundles, order[k], d, e)
  {
    hide Resolve, ResolveAll, Tied, Exclusive, Fit;
    SettledIff(fleet, ResolveAll(fleet, st, order, k, now).0, order[k], now);
    TurnIs(fleet, st, order, k, now);
    TurnsElsewhere(fleet, st, order, k + 1, |order|, now, order[k]);
    SameHolders(fleet, ResolveAll(fleet, st, order, k + 1, now).0,
                ResolveAll(fleet, st, order, |order|, now).0, order[k]);
  }

  lemma TurnIs(fleet: Fleet, st: State, order: seq<Task>, k: nat, now: real)
    requires Fit(fleet, st) && k < |order| && (forall x :: x in order ==> x in st.agents)
    ensures ResolveAll(fleet, st, order, k + 1, now).0
            == Resolve(fleet, ResolveAll(fleet, st, order, k, now).0, order[k], now).0
  {
    hide Resolve, Fit;
  }

  lemma SameHolders(fleet: Fleet, a: State, b: State, t: Task)
    requires Fit(fleet, a) && Fit(fleet, b)
    requires forall d :: d in fleet.drones ==> (t in b.bundles[d] <==> t in a.bundles[d])
    ensures Exclusive(fleet, a.bundles, t) <==> Exclusive(fleet, b.bundles, t)
  {
  }

  // ---------------------------------------------------------------- whatever the scores

  ghost predicate Settles(fleet: Fleet, st: State, order: seq<Task>, now: real)
    requires Fit(fleet, st) && forall x :: x in order ==> x in st.agents
  {
    forall t :: t in order ==> Exclusive(fleet, ResolveAll(fleet, st, order, |order|, now).0.bundles, t)
  }

  /** No two executors that hold one task have snapshots of the same time. */
  ghost predicate HoldersDiffer(fleet: Fleet, st: State, order: seq<Task>)
    requires Covers(fleet, st.bundles)
  {
    forall t, d, e | t in order && d in fleet.drones && e in fleet.drones && d != e ::
      t in st.bundles[d] && t in st.bundles[e] ==> fleet.stamp(d) != fleet.stamp(e)
  }

  /** The same executors and times with other scores. */
  function Scored(fleet: Fleet, base: (Drone, Task) -> real): Fleet {
    fleet.(base := base)
  }

  ghost predicate SettlesAnyhow(fleet: Fleet, st: State, order: seq<Task>, now: real)
    requires Fit(fleet, st) && forall x :: x in order ==> x in st.agents
  {
    forall base :: NoScoreNegative(base) ==> Settles(Scored(fleet, base), st, order, now)
  }

  ghost predicate NoScoreNegative(base: (Drone, Task) -> real) {
    forall d, t :: base(d, t) >= 0.0
  }

  /** What a drone holds during the phase it held before. */
  lemma HeldBefore(fleet: Fleet, st: State, order: seq<Task>, k: nat, now: real, d: Drone, t: Task)
    requires Fit(fleet, st) && k <= |order| && (forall x :: x in order ==> x in st.agents) && d in fleet.drones
    ensures var b := ResolveAll(fleet, st, order, k, now).0.bundles; d in b && (t in b[d] ==> t in st.bundles[d])
  {
    hide Fit;
    PhaseThins(fleet, st, order, k, now, d);
  }

  lemma NoTieAt(fleet: Fleet, bundles: Holdings, tid: Task)
    requires Covers(fleet, bundles)
    requires forall d, e | d in fleet.drones && e in fleet.drones && d != e ::
               tid in bundles[d] && tid in bundles[e] ==> fleet.stamp(d) != fleet.stamp(e)
    ensures forall d, e :: !Tied(fleet, bundles, tid, d, e)
  {
    hide Score, Index;
  }

  lemma DifferingSettles(fleet: Fleet, st: State, order: seq<Task>, now: real)
    requires Fit(fleet, st) && (forall x :: x in order ==> x in st.agents) && Distinct(order)
    requires HoldersDiffer(fleet, st, order)
    ensures Settles(fleet, st, order, now)
  {
    hide ResolveAll, Exclusive, Tied, Distinct;
    forall t | t in order ensures Exclusive(fleet, ResolveAll(fleet, st, order, |order|, now).0.bundles, t) {
      var k :| 0 <= k < |order| && order[k] == t;
      var b := ResolveAll(fleet, st, order, k, now).0.bundles;
      forall d | d in fleet.drones ensures t in b[d] ==> t in st.bundles[d] {
        HeldBefore(fleet, st, order, k, now, d, t);
      }
      NoTieAt(fleet, b, t);
      PhaseSettledIff(fleet, st, order, k, now);
    }
  }

  /** A task's turn looks at the scores of that task alone. */
  lemma {:induction false} ClaimsLocal(f: Fleet, g: Fleet, bundles: Holdings, tid: Task, k: nat)
    requires f.drones == g.drones && f.stamp == g.stamp && (forall x :: f.base(x, tid) == g.base(x, tid))
    requires Covers(f, bundles) && k <= |f.drones|
    ensures Claims(f, bundles, tid, k) == Claims(g, bundles, tid, k)
  {
    hide Score, Index;
    if k > 0 { ClaimsLocal(f, g, bundles, tid, k - 1); }
  }

  lemma ResolveLocal(f: Fleet, g: Fleet, st: State, tid: Task, now: real)
    requires f.drones == g.drones && f.stamp == g.stamp && (forall x :: f.base(x, tid) == g.base(x, tid))
    requires Distinct(f.drones) && Covers(f, st.bundles) && tid in st.agents
    ensures Resolve(f, st, tid, now) == Resolve(g, st, tid, now)
  {
    hide Claims, ClaimOf, Top, Stripped, Distinct, AnyBeaten;
    ClaimsLocal(f, g, st.bundles, tid, |f.drones|);
  }

  lemma {:induction false} PhaseLocal(f: Fleet, g: Fleet, st: State, order: seq<Task>, k: nat, now: real)
    requires f.drones == g.drones && f.stamp == g.stamp && Fit(f, st) && k <= |order|
    requires forall x :: x in order ==> x in st.agents
    requires forall i, x :: 0 <= i < k ==> f.base(x, order[i]) == g.base(x, order[i])
    ensures ResolveAll(f, st, order, k, now) == ResolveAll(g, st, order, k, now)
  {
    hide Resolve, Distinct;
    if k > 0 {
      PhaseLocal(f, g, st, order, k - 1, now);
      ResolveLocal(f, g, ResolveAll(f, st, order, k - 1, now).0, order[k - 1], now);
    }
  }

  /** Scores that make the claims of two drones on `t`, from these positions, both worth one. */
  function EvenScores(t: Task, d: Drone, pd: nat, e: Drone, pe: nat): (Drone, Task) -> real {
    PowerPositive(pd);
    PowerPositive(pe);
    (x: Drone, u: Task) =>
      if u != t then 0.0
      else if x == d then 1.0 / Power(DIMINISHING, pd) else if x == e then 1.0 / Power(DIMINISHING, pe) else 0.0
  }

  lemma PowerPositive(p: nat)
    ensures Power(DIMINISHING, p) > 0.0
  {
    PowerRange(DIMINISHING, p);
  }

  lemma OneOver(p: real)
    requires p > 0.0
    ensures (1.0 / p) * p == 1.0 && 1.0 / p >= 0.0
  {
  }

  lemma EvenFacts(t: Task, d: Drone, pd: nat, e: Drone, pe: nat)
    requires d != e
    ensures var base := EvenScores(t, d, pd, e, pe);
            && NoScoreNegative(base) && Score(base(d, t), pd) == 1.0 && Score(base(e, t), pe) == 1.0
            && (forall x, p :: x != d && x != e ==> Score(base(x, t), p) == 0.0)
            && (forall x, u :: u != t ==> base(x, u) == 0.0)
  {
    PowerPositive(pd);
    PowerPositive(pe);
    OneOver(Power(DIMINISHING, pd));
    OneOver(Power(DIMINISHING, pe));
    forall x, p | x != d && x != e ensures Score(EvenScores(t, d, pd, e, pe)(x, t), p) == 0.0 {
    }
  }

  /** Two even claims of one time, above all others, are tied. */
  lemma EvenTie(fleet: Fleet, bundles: Holdings, t: Task, d: Drone, e: Drone)
    requires Covers(fleet, bundles) && d in fleet.drones && e in fleet.drones && d != e
    requires t in bundles[d] && t in bundles[e] && fleet.stamp(d) == fleet.stamp(e)
    requires ClaimOf(fleet, bundles, t, d).score == 1.0 && ClaimOf(fleet, bundles, t, e).score == 1.0
    requires forall x, p :: x != d && x != e ==> Score(fleet.base(x, t), p) == 0.0
    ensures Tied(fleet, bundles, t, d, e)
  {
    hide Score, Index;
  }

  /** Where two holders of one task share a time, some scores leave both with it. */
  lemma SharedStampsStay(fleet: Fleet, st: State, order: seq<Task>, now: real, k: nat, d: Drone, e: Drone)
    returns (base: (Drone, Task) -> real)
    requires Fit(fleet, st) && (forall x :: x in order ==> x in st.agents) && Distinct(order) && k < |order|
    requires d in fleet.drones && e in fleet.drones && d != e && fleet.stamp(d) == fleet.stamp(e)
    requires order[k] in st.bundles[d] && order[k] in st.bundles[e]
    ensures NoScoreNegative(base) && !Settles(Scored(fleet, base), st, order, now)
  {
    hide ResolveAll, Resolve, Exclusive, Tied, Score, EvenScores;
    var t := order[k];
    var nil := Scored(fleet, (x: Drone, u: Task) => 0.0);
    var b := ResolveAll(nil, st, order, k, now).0.bundles;
    AtFirst(nil, st, order, now);
    TurnsElsewhere(nil, st, order, 0, k, now, t);
    var pd, pe := Index(b[d], t), Index(b[e], t);
    base := EvenScores(t, d, pd, e, pe);
    EvenFacts(t, d, pd, e, pe);
    var f := Scored(fleet, base);
    PhaseLocal(nil, f, st, order, k, now);
    EvenTie(f, b, t, d, e);
    PhaseSettledIff(f, st, order, k, now);
  }

  lemma AtFirst(fleet: Fleet, st: State, order: seq<Task>, now: real)
    requires Fit(fleet, st) && forall x :: x in order ==> x in st.agents
    ensures ResolveAll(fleet, st, order, 0, now).0 == st
  {
  }

  /** One phase leaves every task with at most one holder, whatever the scores, exactly when no two
      executors that hold one task have snapshots of the same time. */
  lemma SettlesAnyhowIff(fleet: Fleet, st: State, order: seq<Task>, now: real)
    requires Fit(fleet, st) && (forall x :: x in order ==> x in st.agents) && Distinct(order)
    ensures SettlesAnyhow(fleet, st, order, now) <==> HoldersDiffer(fleet, st, order)
  {
    hide Settles, NoScoreNegative, Distinct;
    if HoldersDiffer(fleet, st, order) {
      forall base | NoScoreNegative(base) ensures Settles(Scored(fleet, base), st, order, now) {
        DifferingSettles(Scored(fleet, base), st, order, now);
      }
    } else {
      var t, d, e :| && t in order && d in fleet.drones && e in fleet.drones && d != e
                     && t in st.bundles[d] && t in st.bundles[e] && fleet.stamp(d) == fleet.stamp(e);
      var k :| 0 <= k < |order| && order[k] == t;
      var base := SharedStampsStay(fleet, st, order, now, k, d, e);
    }
  }

  /** Without distinct stamps that fails: two drones with equal claims both keep the task. */
  lemma EqualClaimsStay(now: real)
    ensures var fleet := Fleet([0, 1], (d: Drone, t: Task) => 1.0, (d: Drone) => 5.0);
            var st := State(map[0 := [7], 1 := [7]], map[7 := -1.0], map[7 := None], map[7 := 0.0]);
            Fit(fleet, st) && !Exclusive(fleet, ResolveAll(fleet, st, [7], 1, now).0.bundles, 7)
  {
    var fleet := Fleet([0, 1], (d: Drone, t: Task) => 1.0, (d: Drone) => 5.0);
    var st := State(map[0 := [7], 1 := [7]], map[7 := -1.0], map[7 := None], map[7 := 0.0]);
    assert Unbeatable(fleet, st.bundles, 7, 0) && Unbeatable(fleet, st.bundles, 7, 1);
    assert Tied(fleet, st.bundles, 7, 0, 1);
    SettledIff(fleet, st, 7, now);
    assert ResolveAll(fleet, st, [7], 0, now).0 == st;
  }
}