/** What can always still happen in a swarm: any majority that is in touch can make any of its cut-off
    drones the leader of a new term. */
module Liveness {
  import opened Consensus
  import opened Election
  import opened Wrappers

  /** When a vote is granted, in the terms of the request. */
  lemma GrantIff(n: Node, candidate: DroneId, term: int, now: real)
    ensures var m := VoteRequested(n, candidate, term, now);
            && (Grants(n, candidate, term) <==>
                  term > n.term || (term == n.term && (n.votedFor == None || n.votedFor == Some(candidate))))
            && m.term == (if term > n.term then term else n.term)
            && m.votedFor == (if Grants(n, candidate, term) then Some(candidate) else n.votedFor)
  {
  }

  // ---------------------------------------------------------------- continuing a run

  /** One of the drones in `q` takes a step. */
  ghost predicate By(q: set<DroneId>, s: Swarm, t: Swarm) {
    exists step: Step :: step.i in q && Enabled(s, step) && t == After(s, step)
  }

  /** `cont` goes on where `run` ends, and only drones in `q` take part. */
  ghost predicate Continues(run: seq<Swarm>, cont: seq<Swarm>, q: set<DroneId>) {
    && run != [] && run <= cont
    && forall k :: |run| - 1 <= k < |cont| - 1 ==> By(q, cont[k], cont[k + 1])
  }

  lemma ContinuesRun(run: seq<Swarm>, cont: seq<Swarm>, q: set<DroneId>)
    requires IsRun(run) && Continues(run, cont, q)
    ensures IsRun(cont)
  {
    hide Enabled, After, Initial;
    forall k | 0 <= k < |cont| - 1 ensures Next(cont[k], cont[k + 1]) {
      if k < |run| - 1 {
        assert Next(run[k], run[k + 1]);
      } else {
        assert By(q, cont[k], cont[k + 1]);
      }
    }
  }

  lemma OneStep(cont: seq<Swarm>, q: set<DroneId>, run: seq<Swarm>, step: Step) returns (more: seq<Swarm>)
    requires cont != [] && Continues(run, cont, q) && step.i in q && Enabled(cont[|cont| - 1], step)
    ensures more != [] && Continues(run, more, q) && more[|more| - 1] == After(cont[|cont| - 1], step)
  {
    hide Enabled, After;
    more := cont + [After(cont[|cont| - 1], step)];
    forall k | |run| - 1 <= k < |more| - 1 ensures By(q, more[k], more[k + 1]) {
      if k < |cont| - 1 {
        assert By(q, cont[k], cont[k + 1]);
      }
    }
  }

  // ---------------------------------------------------------------- opening an election

  /** The drone stands for election in `term` with at least the votes of `heard`. */
  predicate Standing(s: Swarm, i: DroneId, term: int, heard: set<DroneId>) {
    && i in s.nodes && i in s.configs
    && var n := s.nodes[i];
       n.role.Candidate? && n.term == term && n.running && !n.baseConnected && heard <= n.votes
  }

  /** A swarm with the same members, configured the same, in which every drone of `q` but `i` is as before. */
  ghost predicate SameBut(s: Swarm, t: Swarm, i: DroneId) {
    && t.configs == s.configs && t.nodes.Keys == s.nodes.Keys && s.net <= t.net
    && forall j :: j in s.nodes && j != i ==> t.nodes[j] == s.nodes[j]
  }

  /** A reading of the clocks at which a follower's patience is over; the return-to-launch timer is not. */
  function Impatient(c: Config, n: Node): Clock {
    var lost := n.baseLastSeen + c.commsTimeoutS + 1.0;
    Clock(lost, lost, n.lastHeartbeat + 3.0, 2.0, n.lastHeartbeat + 3.0,
          (if n.autonomousStart.Some? then n.autonomousStart.value else lost) + c.rules.timeoutS)
  }

  /** The same for a candidate's, which is twice as long. */
  function Exhausted(c: Config, n: Node): Clock {
    Impatient(c, n).(tick := n.lastHeartbeat + 5.0)
  }

  /** A cut-off drone that follows opens an election; one that stands steps back first. */
  lemma PollOpens(c: Config, n: Node)
    requires n.running && n.role.Follower? && (n.baseConnected ==> n.autonomousStart.None?)
    ensures var m := Polled(c, n, Impatient(c, n));
            && m.role.Candidate? && m.term == n.term + 1 && m.running && !m.baseConnected && m.votes == {c.id}
  {
  }

  lemma PollStepsBack(c: Config, n: Node)
    requires n.running && n.role.Candidate? && !n.baseConnected
    ensures var m := Polled(c, n, Exhausted(c, n));
            && m.role.Follower? && m.term == n.term && m.running && !m.baseConnected
  {
  }

  /** From any role a running, cut-off drone can open an election in the next term. */
  lemma Opens(run: seq<Swarm>, cont: seq<Swarm>, q: set<DroneId>, i: DroneId) returns (more: seq<Swarm>)
    requires cont != [] && Continues(run, cont, q) && i in q
    requires var s := cont[|cont| - 1];
             Configured(s) && i in s.nodes && s.nodes[i].running && !s.nodes[i].baseConnected
    ensures more != [] && Continues(run, more, q)
    ensures var s, t := cont[|cont| - 1], more[|more| - 1];
            SameBut(s, t, i) && i in s.nodes && Standing(t, i, s.nodes[i].term + 1, {i}) && Configured(t)
  {
    hide Continues, Polled;
    var s := cont[|cont| - 1];
    var c, n := s.configs[i], s.nodes[i];
    more := cont;
    if n.role.Candidate? {
      PollStepsBack(c, n);
      more := OneStep(more, q, run, Step.Poll(i, Exhausted(c, n)));
    } else if n.role.Leader? {
      more := OneStep(more, q, run, BaseContact(i, n.baseLastSeen));
    }
    var u := more[|more| - 1];
    PollOpens(c, u.nodes[i]);
    more := OneStep(more, q, run, Step.Poll(i, Impatient(c, u.nodes[i])));
  }

  /** And so in a term as high as one likes. */
  lemma OpensAbove(run: seq<Swarm>, cont: seq<Swarm>, q: set<DroneId>, i: DroneId, floor: int)
    returns (more: seq<Swarm>)
    requires cont != [] && Continues(run, cont, q) && i in q
    requires var s := cont[|cont| - 1];
             Configured(s) && i in s.nodes && s.nodes[i].running && !s.nodes[i].baseConnected
    ensures more != [] && Continues(run, more, q)
    ensures var s, t := cont[|cont| - 1], more[|more| - 1];
            && SameBut(s, t, i) && Configured(t) && i in t.nodes
            && t.nodes[i].term > floor && Standing(t, i, t.nodes[i].term, {i})
    decreases floor - cont[|cont| - 1].nodes[i].term
  {
    hide Continues;
    more := Opens(run, cont, q, i);
    if more[|more| - 1].nodes[i].term <= floor {
      var mid := more[|more| - 1];
      more := OpensAbove(run, more, q, i, floor);
    }
  }

  lemma {:induction false} TermsBounded(s: Swarm, q: set<DroneId>, least: int) returns (bound: int)
    requires q <= s.nodes.Keys
    ensures bound >= least && forall j :: j in q ==> s.nodes[j].term <= bound
    decreases |q|
  {
    bound := least;
    if q != {} {
      var j :| j in q;
      var below := TermsBounded(s, q - {j}, least);
      bound := if s.nodes[j].term > below then s.nodes[j].term else below;
    }
  }

  // ---------------------------------------------------------------- collecting the votes

  /** The drones of `todo` have not reached the term, and the request for it is on the network. */
  ghost predicate Asked(s: Swarm, i: DroneId, term: int, todo: set<DroneId>) {
    && Configured(s) && VoteRequest(i, term) in s.net && i !in todo
    && forall j :: j in todo ==> j in s.nodes && s.nodes[j].term < term
  }

  /** A drone of a lower term grants the request, and its answer goes out. */
  lemma VoteGiven(s: Swarm, i: DroneId, term: int, heard: set<DroneId>, todo: set<DroneId>, j: DroneId)
    requires Asked(s, i, term, todo) && Standing(s, i, term, heard) && j in todo
    ensures Enabled(s, GiveVote(j, VoteRequest(i, term), 0.0))
    ensures var t := After(s, GiveVote(j, VoteRequest(i, term), 0.0));
            Asked(t, i, term, todo - {j}) && Standing(t, i, term, heard) && VoteResponse(j, i, term, true) in t.net
  {
  }

  lemma VoteCountedIn(s: Swarm, i: DroneId, term: int, heard: set<DroneId>, todo: set<DroneId>, j: DroneId)
    requires Asked(s, i, term, todo) && Standing(s, i, term, heard) && VoteResponse(j, i, term, true) in s.net
    ensures Enabled(s, CountVote(i, VoteResponse(j, i, term, true)))
    ensures var t := After(s, CountVote(i, VoteResponse(j, i, term, true)));
            Asked(t, i, term, todo) && Standing(t, i, term, heard + {j})
  {
  }

  /** One drone grants the request and its answer is counted. */
  lemma CollectsOne(run: seq<Swarm>, cont: seq<Swarm>, q: set<DroneId>, i: DroneId, term: int, heard: set<DroneId>,
                    todo: set<DroneId>, j: DroneId)
    returns (more: seq<Swarm>)
    requires cont != [] && Continues(run, cont, q) && i in q && todo <= q && j in todo
    requires Asked(cont[|cont| - 1], i, term, todo) && Standing(cont[|cont| - 1], i, term, heard)
    ensures more != [] && Continues(run, more, q) && more[|more| - 1].configs == cont[|cont| - 1].configs
    ensures Asked(more[|more| - 1], i, term, todo - {j}) && Standing(more[|more| - 1], i, term, heard + {j})
  {
    hide Continues, Standing, Asked, Enabled, After;
    var s := cont[|cont| - 1];
    var give, count := GiveVote(j, VoteRequest(i, term), 0.0), CountVote(i, VoteResponse(j, i, term, true));
    VoteGiven(s, i, term, heard, todo, j);
    ConfigsStay(s, give);
    more := OneStep(cont, q, run, give);
    var t := more[|more| - 1];
    VoteCountedIn(t, i, term, heard, todo - {j}, j);
    ConfigsStay(t, count);
    more := OneStep(more, q, run, count);
  }

  lemma Collects(run: seq<Swarm>, cont: seq<Swarm>, q: set<DroneId>, i: DroneId, term: int, heard: set<DroneId>,
                 todo: set<DroneId>)
    returns (more: seq<Swarm>)
    requires cont != [] && Continues(run, cont, q) && i in q && todo <= q
    requires Asked(cont[|cont| - 1], i, term, todo) && Standing(cont[|cont| - 1], i, term, heard)
    ensures more != [] && Continues(run, more, q) && more[|more| - 1].configs == cont[|cont| - 1].configs
    ensures Configured(more[|more| - 1]) && Standing(more[|more| - 1], i, term, heard + todo)
    decreases |todo|
  {
    hide *;
    if todo == {} {
      more := cont;
      NothingAdded(heard);
      AskedParts(cont[|cont| - 1], i, term, todo);
    } else {
      var j :| j in todo;
      more := CollectsOne(run, cont, q, i, term, heard, todo, j);
      more := Collects(run, more, q, i, term, heard + {j}, todo - {j});
      Regrouped(heard, j, todo);
    }
  }

  lemma Regrouped<T>(a: set<T>, x: T, b: set<T>)
    requires x in b
    ensures a + {x} + (b - {x}) == a + b && |b - {x}| < |b| && b - {x} <= b
  {
  }

  lemma NothingAdded<T>(a: set<T>)
    ensures a + {} == a
  {
  }

  lemma AskedParts(s: Swarm, i: DroneId, term: int, todo: set<DroneId>)
    requires Asked(s, i, term, todo)
    ensures Configured(s)
  {
  }

  lemma ConfigsStay(s: Swarm, step: Step)
    requires Enabled(s, step)
    ensures After(s, step).configs == s.configs
  {
  }

  // ---------------------------------------------------------------- winning

  /** A reading of the clocks at which nobody's patience is over. */
  function Patient(c: Config, n: Node): Clock {
    Impatient(c, n).(tick := n.lastHeartbeat)
  }

  lemma PollWins(c: Config, n: Node)
    requires n.role.Candidate? && !n.baseConnected && |n.votes| >= Needed(c)
    ensures var m := Polled(c, n, Patient(c, n)); m.role.Leader? && m.term == n.term && m.leaderId == Some(c.id)
  {
  }

  lemma EnoughVotes(s: Swarm, i: DroneId, term: int, q: set<DroneId>)
    requires Configured(s) && Standing(s, i, term, q)
    requires |q| >= |s.nodes| / 2 + 1 && |s.configs[i].peers| + 1 == |s.nodes|
    ensures |s.nodes[i].votes| >= Needed(s.configs[i])
  {
    SubsetSize(q, s.nodes[i].votes);
  }

  lemma Wins(run: seq<Swarm>, cont: seq<Swarm>, q: set<DroneId>, i: DroneId, term: int) returns (more: seq<Swarm>)
    requires cont != [] && Continues(run, cont, q) && i in q
    requires var s := cont[|cont| - 1];
             && Configured(s) && Standing(s, i, term, q) && |q| >= |s.nodes| / 2 + 1
             && |s.configs[i].peers| + 1 == |s.nodes|
    ensures more != [] && Continues(run, more, q)
    ensures var t := more[|more| - 1]; i in t.nodes && t.nodes[i].role.Leader? && t.nodes[i].term == term
  {
    hide Continues, Polled, Needed;
    var s := cont[|cont| - 1];
    EnoughVotes(s, i, term, q);
    PollWins(s.configs[i], s.nodes[i]);
    more := OneStep(cont, q, run, Step.Poll(i, Patient(s.configs[i], s.nodes[i])));
  }

  /** Whatever a run has left behind: a running, cut-off drone can become leader of a term above any given
      one, and so above every term so far, while only a majority of the drones takes part. */
  lemma AnyMajorityCanElect(run: seq<Swarm>, q: set<DroneId>, i: DroneId, floor: int) returns (cont: seq<Swarm>)
    requires IsRun(run)
    requires var s := run[|run| - 1];
             && i in q && q <= s.nodes.Keys && |q| >= |s.nodes| / 2 + 1
             && i in s.configs && |s.configs[i].peers| + 1 == |s.nodes|
             && s.nodes[i].running && !s.nodes[i].baseConnected
    ensures IsRun(cont) && cont != [] && Continues(run, cont, q)
    ensures var t := cont[|cont| - 1]; i in t.nodes && t.nodes[i].role.Leader? && t.nodes[i].term > floor
  {
    hide Continues, IsRun, Enabled, Standing, Inv, SameBut, Asked;
    RunNotEmpty(run);
    var s := run[|run| - 1];
    RunConfigured(run);
    cont := run;
    ContinuesSelf(run, q);
    var bound := TermsBounded(s, q, floor);
    cont := OpensAbove(run, cont, q, i, bound);
    var began := cont[|cont| - 1];
    var term := began.nodes[i].term;
    SameParts(s, began, i);
    StandingParts(began, i, term, {i});
    AskEnabled(began, i);
    cont := OneStep(cont, q, run, AskVotes(i));
    RequestOut(s, began, i, term, q, bound);
    cont := Collects(run, cont, q, i, term, {i}, q - {i});
    assert {i} + (q - {i}) == q;
    NodesCount(s, cont[|cont| - 1]);
    cont := Wins(run, cont, q, i, term);
    ContinuesRun(run, cont, q);
  }

  lemma RunConfigured(run: seq<Swarm>)
    requires IsRun(run)
    ensures Configured(run[|run| - 1])
  {
    hide IsRun;
    RunNotEmpty(run);
    RunKeepsInv(run, |run| - 1);
  }

  lemma RunNotEmpty(run: seq<Swarm>)
    requires IsRun(run)
    ensures run != []
  {
  }

  lemma ContinuesSelf(run: seq<Swarm>, q: set<DroneId>)
    requires run != []
    ensures Continues(run, run, q)
  {
  }

  lemma SameParts(s: Swarm, t: Swarm, i: DroneId)
    requires SameBut(s, t, i)
    ensures t.configs == s.configs && t.nodes.Keys == s.nodes.Keys
    ensures forall j :: j in s.nodes && j != i ==> t.nodes[j] == s.nodes[j]
  {
  }

  lemma StandingParts(s: Swarm, i: DroneId, term: int, heard: set<DroneId>)
    requires Standing(s, i, term, heard)
    ensures i in s.nodes && i in s.configs && s.nodes[i].role.Candidate? && s.nodes[i].term == term
  {
  }

  lemma AskEnabled(s: Swarm, i: DroneId)
    requires i in s.nodes && i in s.configs && s.nodes[i].role.Candidate?
    ensures Enabled(s, AskVotes(i))
  {
  }

  /** Once the drone has asked, everyone else of `q` is behind its term. */
  lemma RequestOut(s: Swarm, u: Swarm, i: DroneId, term: int, q: set<DroneId>, bound: int)
    requires Configured(u) && Standing(u, i, term, {i}) && q <= s.nodes.Keys && u.nodes.Keys == s.nodes.Keys
    requires term > bound
    requires forall j :: j in q ==> s.nodes[j].term <= bound
    requires forall j :: j in s.nodes && j != i ==> u.nodes[j] == s.nodes[j]
    requires Enabled(u, AskVotes(i))
    ensures var t := After(u, AskVotes(i));
            Asked(t, i, term, q - {i}) && Standing(t, i, term, {i}) && t.configs == u.configs
  {
  }

  lemma NodesCount(s: Swarm, t: Swarm)
    requires Configured(s) && Configured(t) && t.configs == s.configs
    ensures |t.nodes| == |s.nodes|
  {
    assert |s.nodes| == |s.nodes.Keys| && |t.nodes| == |t.nodes.Keys|;
  }
}
