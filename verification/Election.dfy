/** The swarm: drones running the state machine of module Consensus over a network that may
    lose, duplicate, delay and reorder messages. Safety of every run. */
module Election {
  import opened Wrappers
  import opened Consensus

  datatype Message =
    | VoteRequest(candidate: DroneId, term: int)
    | VoteResponse(voter: DroneId, addressee: DroneId, term: int, granted: bool)
    | Heartbeat(leader: DroneId, term: int)

  /** A vote once given: kept in the history, never taken back. */
  datatype Ballot = Ballot(voter: DroneId, term: int, candidate: DroneId)

  /** A decision with the circumstances in which it was made. */
  datatype Ruling = Ruling(node: DroneId, request: Request, baseConnected: bool, record: Decision)

  /** `net` holds every message ever sent; a message in it may be delivered any number of
      times, at any time, or never. `cast` and `rulings` are history. */
  datatype Swarm = Swarm(configs: map<DroneId, Config>, nodes: map<DroneId, Node>, net: set<Message>,
                         cast: set<Ballot>, rulings: seq<Ruling>)

  datatype Step =
    | Start(i: DroneId)
    | Stop(i: DroneId)
    | Poll(i: DroneId, k: Clock)
    | BaseContact(i: DroneId, now: real)
    | AskVotes(i: DroneId)
    | GiveVote(i: DroneId, m: Message, now: real)
    | CountVote(i: DroneId, m: Message)
    | Announce(i: DroneId)
    | Follow(i: DroneId, m: Message, now: real)
    | Decide(i: DroneId, r: Request, now: real)

  /** The drones that take part, each with a peer list at least as long as the number of others. */
  predicate Configured(s: Swarm) {
    && s.nodes.Keys == s.configs.Keys
    && forall i :: i in s.configs ==> s.configs[i].id == i && |s.nodes| <= |s.configs[i].peers| + 1
  }

  predicate Initial(s: Swarm) {
    && Configured(s)
    && (forall i :: i in s.nodes ==> s.nodes[i] == Fresh(s.nodes[i].lastHeartbeat))
    && s.net == {} && s.cast == {} && s.rulings == []
  }

  predicate Enabled(s: Swarm, step: Step) {
    && step.i in s.nodes && step.i in s.configs
    && match step
       case Poll(i, _) => s.nodes[i].running
       case AskVotes(i) => s.nodes[i].role.Candidate?
       case GiveVote(_, m, _) => m in s.net && m.VoteRequest?
       case CountVote(i, m) => m in s.net && m.VoteResponse? && m.addressee == i
       case Announce(i) => s.nodes[i].role.Leader?
       case Follow(_, m, _) => m in s.net && m.Heartbeat?
       case _ => true
  }

  /** What the drone named in the step turns into. */
  function Moved(c: Config, n: Node, step: Step): Node {
    match step
    case Start(_) => n.(running := true)
    case Stop(_) => n.(running := false)
    case Poll(_, k) => Polled(c, n, k)
    case BaseContact(_, now) => BaseHeard(n, now)
    case AskVotes(_) => n
    case GiveVote(_, m, now) => if m.VoteRequest? then VoteRequested(n, m.candidate, m.term, now) else n
    case CountVote(_, m) => if m.VoteResponse? then VoteCounted(n, m.voter, m.term, m.granted) else n
    case Announce(_) => n
    case Follow(_, m, now) => if m.Heartbeat? then LeaderHeard(n, m.leader, m.term, now) else n
    case Decide(_, r, now) => Decided(c, n, r, now)
  }

  /** The messages the step puts on the network. */
  function Sent(c: Config, n: Node, step: Step): set<Message> {
    match step
    case AskVotes(i) => {VoteRequest(i, n.term)}
    case GiveVote(i, m, now) =>
      if m.VoteRequest?
      then {VoteResponse(i, m.candidate, VoteRequested(n, m.candidate, m.term, now).term,
                         Grants(n, m.candidate, m.term))}
      else {}
    case Announce(i) => {Heartbeat(i, n.term)}
    case _ => {}
  }

  /** The votes given in the step: an election opens with a vote for oneself. */
  function Given(c: Config, n: Node, step: Step): set<Ballot> {
    match step
    case Poll(i, k) =>
      var m := Polled(c, n, k);
      if m.term > n.term then {Ballot(i, m.term, i)} else {}
    case GiveVote(i, m, _) =>
      if m.VoteRequest? && Grants(n, m.candidate, m.term) then {Ballot(i, m.term, m.candidate)} else {}
    case _ => {}
  }

  function Ruled(c: Config, n: Node, step: Step): seq<Ruling> {
    match step
    case Decide(i, r, now) =>
      var m := Decided(c, n, r, now);
      if n.role.Leader? && m.decisions != [] then [Ruling(i, r, n.baseConnected, m.decisions[|m.decisions| - 1])]
      else []
    case _ => []
  }

  function After(s: Swarm, step: Step): Swarm
    requires Enabled(s, step)
  {
    var c, n := s.configs[step.i], s.nodes[step.i];
    Swarm(s.configs, s.nodes[step.i := Moved(c, n, step)], s.net + Sent(c, n, step),
          s.cast + Given(c, n, step), s.rulings + Ruled(c, n, step))
  }

  ghost predicate Next(s: Swarm, t: Swarm) {
    exists step :: Enabled(s, step) && t == After(s, step)
  }

  /** A run: any finite sequence of states joined by steps. */
  ghost predicate IsRun(run: seq<Swarm>) {
    && run != [] && Initial(run[0])
    && forall k :: 0 <= k < |run| - 1 ==> Next(run[k], run[k + 1])
  }

  // ---------------------------------------------------------------- quorums

  function Supporters(cast: set<Ballot>, term: int, candidate: DroneId): set<DroneId> {
    set b | b in cast && b.term == term && b.candidate == candidate :: b.voter
  }

  /** More than half of `size` drones voted for the candidate in the term. */
  predicate Quorum(cast: set<Ballot>, size: nat, term: int, candidate: DroneId) {
    |Supporters(cast, term, candidate)| >= size / 2 + 1
  }

  predicate OneVotePerTerm(cast: set<Ballot>) {
    forall b, d :: b in cast && d in cast && b.voter == d.voter && b.term == d.term ==> b.candidate == d.candidate
  }

  predicate VotersKnown(cast: set<Ballot>, drones: set<DroneId>) {
    forall b :: b in cast ==> b.voter in drones
  }

  lemma {:induction false} SubsetSize<T>(a: set<T>, b: set<T>)
    requires a <= b
    ensures |a| <= |b|
    decreases |a|
  {
    if a != {} {
      var x :| x in a;
      SubsetSize(a - {x}, b - {x});
    }
  }

  lemma QuorumGrows(cast: set<Ballot>, more: set<Ballot>, size: nat, term: int, candidate: DroneId)
    requires cast <= more && Quorum(cast, size, term, candidate)
    ensures Quorum(more, size, term, candidate)
  {
    assert Supporters(cast, term, candidate) <= Supporters(more, term, candidate);
    SubsetSize(Supporters(cast, term, candidate), Supporters(more, term, candidate));
  }

  /** Two majorities share a voter, and that voter voted once. */
  lemma QuorumsAgree(cast: set<Ballot>, drones: set<DroneId>, term: int, a: DroneId, b: DroneId)
    requires OneVotePerTerm(cast) && VotersKnown(cast, drones)
    requires Quorum(cast, |drones|, term, a) && Quorum(cast, |drones|, term, b)
    ensures a == b
  {
    var p, q := Supporters(cast, term, a), Supporters(cast, term, b);
    assert p <= drones && q <= drones;
    SubsetSize(p + q, drones);
    assert |p + q| + |p * q| == |p| + |q|;
    assert |p * q| > 0;
    var v :| v in p * q;
    assert Ballot(v, term, a) in cast && Ballot(v, term, b) in cast;
  }

  // ---------------------------------------------------------------- the invariant

  /** A drone has voted at most up to its term, and in its term only for `votedFor`. */
  predicate VotesHonoured(i: DroneId, n: Node, cast: set<Ballot>) {
    forall b :: b in cast && b.voter == i ==>
      b.term < n.term || (b.term == n.term && n.votedFor == Some(b.candidate))
  }

  /** A candidate's or leader's tally holds only votes given to it in its term. */
  predicate TallyBacked(i: DroneId, n: Node, cast: set<Ballot>) {
    !n.role.Follower? ==> forall v :: v in n.votes ==> Ballot(v, n.term, i) in cast
  }

  function CountApproved(ds: seq<Decision>): nat {
    if ds == [] then 0
    else CountApproved(ds[..|ds| - 1]) + if ds[|ds| - 1].verdict.Approved? then 1 else 0
  }

  function Budget(c: Config): nat {
    if c.rules.maxTasks < 0 then 0 else c.rules.maxTasks
  }

  predicate WithinBudget(c: Config, n: Node) {
    n.approved == CountApproved(n.decisions) && n.approved <= Budget(c)
  }

  predicate DecisionsBacked(i: DroneId, n: Node, cast: set<Ballot>, size: nat) {
    forall d :: d in n.decisions ==> d.decidedBy == i && Quorum(cast, size, d.term, i)
  }

  predicate NodeOk(c: Config, n: Node, cast: set<Ballot>, size: nat) {
    && VotesHonoured(c.id, n, cast)
    && TallyBacked(c.id, n, cast)
    && (n.role.Leader? ==> Quorum(cast, size, n.term, c.id))
    && (!n.role.Follower? ==> !n.baseConnected)
    && WithinBudget(c, n)
    && DecisionsBacked(c.id, n, cast, size)
  }

  predicate NetOk(net: set<Message>, cast: set<Ballot>) {
    forall m :: m in net && m.VoteResponse? && m.granted ==> Ballot(m.voter, m.term, m.addressee) in cast
  }

  predicate RulingOk(r: Ruling) {
    && !r.baseConnected
    && (r.request.level.Emergency? ==> r.record.verdict.Denied?)
    && r.record.escalationId == r.request.id
  }

  /** The decisions of one drone, in order, as the history has them. */
  function RecordsOf(rulings: seq<Ruling>, i: DroneId): seq<Decision> {
    if rulings == [] then []
    else
      var last := rulings[|rulings| - 1];
      RecordsOf(rulings[..|rulings| - 1], i) + if last.node == i then [last.record] else []
  }

  predicate HistoryOk(s: Swarm) {
    && (forall i :: i in s.nodes ==> RecordsOf(s.rulings, i) == s.nodes[i].decisions)
    && (forall k :: 0 <= k < |s.rulings| ==> s.rulings[k].node in s.nodes && RulingOk(s.rulings[k]))
  }

  predicate NodesOk(s: Swarm)
    requires Configured(s)
  {
    forall i :: i in s.nodes ==> NodeOk(s.configs[i], s.nodes[i], s.cast, |s.nodes|)
  }

  predicate Inv(s: Swarm) {
    && Configured(s)
    && OneVotePerTerm(s.cast) && VotersKnown(s.cast, s.nodes.Keys)
    && NetOk(s.net, s.cast)
    && NodesOk(s)
    && HistoryOk(s)
  }

  lemma InitialInv(s: Swarm)
    requires Initial(s)
    ensures Inv(s)
  {
  }

  // ---------------------------------------------------------------- one drone's step keeps its part

  lemma OthersUntouched(c: Config, n: Node, cast: set<Ballot>, given: set<Ballot>, size: nat)
    requires NodeOk(c, n, cast, size)
    requires forall b :: b in given ==> b.voter != c.id
    ensures NodeOk(c, n, cast + given, size)
  {
    if n.role.Leader? { QuorumGrows(cast, cast + given, size, n.term, c.id); }
    forall d | d in n.decisions ensures Quorum(cast + given, size, d.term, c.id) {
      QuorumGrows(cast, cast + given, size, d.term, c.id);
    }
  }

  /** What the last part of the invariant needs when votes are added but decisions stay. */
  lemma DecisionsKept(i: DroneId, n: Node, m: Node, cast: set<Ballot>, given: set<Ballot>, size: nat)
    requires DecisionsBacked(i, n, cast, size) && m.decisions == n.decisions
    ensures DecisionsBacked(i, m, cast + given, size)
  {
    forall d | d in m.decisions ensures Quorum(cast + given, size, d.term, i) {
      QuorumGrows(cast, cast + given, size, d.term, i);
    }
  }

  lemma TallyQuorum(c: Config, n: Node, cast: set<Ballot>, size: nat)
    requires size <= |c.peers| + 1
    requires n.role.Candidate? && TallyBacked(c.id, n, cast) && |n.votes| >= Needed(c)
    ensures Quorum(cast, size, n.term, c.id)
  {
    forall v | v in n.votes ensures v in Supporters(cast, n.term, c.id) {
      assert Ballot(v, n.term, c.id) in cast;
    }
    SubsetSize(n.votes, Supporters(cast, n.term, c.id));
  }

  /** An election leaves the drone with its own vote in a term in which it had not voted. */
  lemma ElectOk(c: Config, n: Node, now: real, cast: set<Ballot>, size: nat)
    requires NodeOk(c, n, cast, size) && !n.baseConnected
    ensures var m := Elect(c, n, now);
            NodeOk(c, m, cast + {Ballot(c.id, m.term, c.id)}, size)
            && forall b :: b in cast && b.voter == c.id ==> b.term != m.term
  {
    var m := Elect(c, n, now);
    DecisionsKept(c.id, n, m, cast, {Ballot(c.id, m.term, c.id)}, size);
  }

  lemma TickOk(c: Config, n: Node, k: Clock, cast: set<Ballot>, size: nat)
    requires NodeOk(c, n, cast, size) && !n.baseConnected && size <= |c.peers| + 1
    ensures var m := Tick(c, n, k);
            var given := if m.term > n.term then {Ballot(c.id, m.term, c.id)} else {};
            NodeOk(c, m, cast + given, size) && m.term >= n.term
            && (m.term > n.term ==> forall b :: b in cast && b.voter == c.id ==> b.term != m.term)
  {
    hide Quorum, Needed;
    if n.role.Follower? {
      hide NodeOk;
      if k.tick - n.lastHeartbeat > k.timeout { ElectOk(c, n, k.election, cast, size); }
      assert cast + {} == cast;
    } else {
      assert cast + {} == cast;
      if n.role.Candidate? && |n.votes| >= Needed(c) { TallyQuorum(c, n, cast, size); }
    }
  }

  lemma PollOk(c: Config, n: Node, k: Clock, cast: set<Ballot>, size: nat)
    requires NodeOk(c, n, cast, size) && size <= |c.peers| + 1
    ensures var m := Polled(c, n, k);
            var given := if m.term > n.term then {Ballot(c.id, m.term, c.id)} else {};
            NodeOk(c, m, cast + given, size)
            && (m.term > n.term ==> forall b :: b in cast && b.voter == c.id ==> b.term != m.term)
  {
    hide Quorum, Tick;
    var m := BaseChecked(c, n, k);
    assert NodeOk(c, m, cast, size);
    if m.baseConnected {
      assert cast + {} == cast;
    } else {
      TickOk(c, m, k, cast, size);
    }
  }

  /** A vote is granted only where no other vote was given in the term. */
  lemma GiveVoteOk(c: Config, n: Node, candidate: DroneId, term: int, now: real, cast: set<Ballot>, size: nat)
    requires NodeOk(c, n, cast, size)
    ensures var m := VoteRequested(n, candidate, term, now);
            var given := if Grants(n, candidate, term) then {Ballot(c.id, term, candidate)} else {};
            NodeOk(c, m, cast + given, size)
            && (Grants(n, candidate, term) ==>
                  && m.term == term
                  && forall b :: b in cast && b.voter == c.id && b.term == term ==> b.candidate == candidate)
  {
    var m := VoteRequested(n, candidate, term, now);
    var given := if Grants(n, candidate, term) then {Ballot(c.id, term, candidate)} else {};
    DecisionsKept(c.id, n, m, cast, given, size);
    if m.role.Leader? { QuorumGrows(cast, cast + given, size, m.term, c.id); }
  }

  lemma CountVoteOk(c: Config, n: Node, voter: DroneId, term: int, granted: bool, cast: set<Ballot>, size: nat)
    requires NodeOk(c, n, cast, size)
    requires granted ==> Ballot(voter, term, c.id) in cast
    ensures NodeOk(c, VoteCounted(n, voter, term, granted), cast, size)
  {
    hide Quorum;
  }

  /** Though a heartbeat keeps a stale `votedFor`, the votes already given stay honoured. */
  lemma FollowOk(c: Config, n: Node, leader: DroneId, term: int, now: real, cast: set<Ballot>, size: nat)
    requires NodeOk(c, n, cast, size)
    ensures NodeOk(c, LeaderHeard(n, leader, term, now), cast, size)
  {
    hide Quorum;
  }

  /** The node with one more decision on record. */
  function Appended(n: Node, d: Decision): Node {
    n.(approved := if d.verdict.Approved? then n.approved + 1 else n.approved, decisions := n.decisions + [d])
  }

  /** A leader's decision appends one record and touches nothing else but the counter. */
  lemma DecidedShape(c: Config, n: Node, r: Request, now: real) returns (d: Decision)
    requires n.role.Leader?
    ensures Decided(c, n, r, now) == Appended(n, d)
    ensures d.decidedBy == c.id && d.term == n.term && d.escalationId == r.id
    ensures d.verdict.Approved? <==> n.approved < c.rules.maxTasks && !r.level.Emergency?
  {
    var ds := Decided(c, n, r, now).decisions;
    d := ds[|ds| - 1];
  }

  lemma BudgetKept(c: Config, n: Node, d: Decision)
    requires WithinBudget(c, n) && (d.verdict.Approved? ==> n.approved < c.rules.maxTasks)
    ensures WithinBudget(c, Appended(n, d))
  {
    assert (n.decisions + [d])[..|n.decisions|] == n.decisions;
  }

  lemma BackingKept(i: DroneId, n: Node, d: Decision, cast: set<Ballot>, size: nat)
    requires DecisionsBacked(i, n, cast, size) && d.decidedBy == i && Quorum(cast, size, d.term, i)
    ensures DecisionsBacked(i, Appended(n, d), cast, size)
  {
    hide Quorum;
  }

  lemma DecisionAppended(c: Config, n: Node, d: Decision, cast: set<Ballot>, size: nat)
    requires WithinBudget(c, n) && DecisionsBacked(c.id, n, cast, size)
    requires d.decidedBy == c.id && Quorum(cast, size, d.term, c.id)
    requires d.verdict.Approved? ==> n.approved < c.rules.maxTasks
    ensures WithinBudget(c, Appended(n, d)) && DecisionsBacked(c.id, Appended(n, d), cast, size)
  {
    hide *;
    BudgetKept(c, n, d);
    BackingKept(c.id, n, d, cast, size);
  }

  lemma DecideOk(c: Config, n: Node, r: Request, now: real, cast: set<Ballot>, size: nat)
    requires NodeOk(c, n, cast, size)
    ensures var m := Decided(c, n, r, now);
            NodeOk(c, m, cast, size)
            && (n.role.Leader? ==>
                  m.decisions != [] && var d := m.decisions[|m.decisions| - 1];
                  && m.decisions == n.decisions + [d] && d.escalationId == r.id
                  && (r.level.Emergency? ==> d.verdict.Denied?))
  {
    hide Decided, Quorum, WithinBudget, DecisionsBacked, VotesHonoured, TallyBacked;
    if n.role.Leader? {
      var d := DecidedShape(c, n, r, now);
      DecisionAppended(c, n, d, cast, size);
      VotesKept(c.id, n, d, cast);
    } else {
      NotLeader(c, n, r, now);
    }
  }

  lemma NotLeader(c: Config, n: Node, r: Request, now: real)
    requires !n.role.Leader?
    ensures Decided(c, n, r, now) == n
  {
  }

  lemma VotesKept(i: DroneId, n: Node, d: Decision, cast: set<Ballot>)
    requires VotesHonoured(i, n, cast) && TallyBacked(i, n, cast)
    ensures VotesHonoured(i, Appended(n, d), cast) && TallyBacked(i, Appended(n, d), cast)
  {
  }

  lemma MovedOk(c: Config, n: Node, step: Step, net: set<Message>, cast: set<Ballot>, size: nat)
    requires NodeOk(c, n, cast, size) && size <= |c.peers| + 1 && step.i == c.id && NetOk(net, cast)
    requires step.CountVote? ==> step.m in net && step.m.VoteResponse? && step.m.addressee == c.id
    ensures NodeOk(c, Moved(c, n, step), cast + Given(c, n, step), size)
    ensures forall b, d :: b in Given(c, n, step) && d in cast && d.voter == c.id && d.term == b.term
                           ==> d.candidate == b.candidate
    ensures forall b :: b in Given(c, n, step) ==> b.voter == c.id
    ensures forall m :: m in Sent(c, n, step) && m.VoteResponse? && m.granted
                        ==> Ballot(m.voter, m.term, m.addressee) in Given(c, n, step)
  {
    hide Quorum, Polled, VoteRequested, Grants, Decided;
    assert cast + {} == cast;
    match step
    case Poll(_, k) => PollOk(c, n, k, cast, size);
    case GiveVote(_, m, now) => if m.VoteRequest? { GiveVoteOk(c, n, m.candidate, m.term, now, cast, size); }
    case CountVote(_, m) => CountVoteOk(c, n, m.voter, m.term, m.granted, cast, size);
    case Follow(_, m, now) => if m.Heartbeat? { FollowOk(c, n, m.leader, m.term, now, cast, size); }
    case Decide(_, r, now) => DecideOk(c, n, r, now, cast, size);
    case _ =>
  }

  // ---------------------------------------------------------------- every step keeps the invariant

  lemma StepKeepsNodes(s: Swarm, step: Step)
    requires Inv(s) && Enabled(s, step)
    ensures var t := After(s, step);
            && Configured(t) && NodesOk(t) && OneVotePerTerm(t.cast)
            && VotersKnown(t.cast, t.nodes.Keys) && NetOk(t.net, t.cast)
  {
    hide NodeOk, Given, Sent, Moved;
    var t := After(s, step);
    var c, n := s.configs[step.i], s.nodes[step.i];
    MovedOk(c, n, step, s.net, s.cast, |s.nodes|);
    assert t.nodes.Keys == s.nodes.Keys;
    forall i | i in t.nodes ensures NodeOk(t.configs[i], t.nodes[i], t.cast, |t.nodes|) {
      if i != step.i { OthersUntouched(s.configs[i], s.nodes[i], s.cast, Given(c, n, step), |s.nodes|); }
    }
    GivenOnce(c, n, step);
  }

  lemma GivenOnce(c: Config, n: Node, step: Step)
    ensures forall b, d :: b in Given(c, n, step) && d in Given(c, n, step) ==> b == d
  {
    hide Polled, Grants;
  }

  lemma RecordsSnoc(rulings: seq<Ruling>, r: Ruling, i: DroneId)
    ensures RecordsOf(rulings + [r], i) == RecordsOf(rulings, i) + if r.node == i then [r.record] else []
  {
    assert (rulings + [r])[..|rulings|] == rulings;
  }

  lemma DecisionsOnlyByDecide(c: Config, n: Node, step: Step)
    requires !step.Decide?
    ensures Moved(c, n, step).decisions == n.decisions
  {
  }

  lemma StepKeepsHistory(s: Swarm, step: Step)
    requires Inv(s) && Enabled(s, step)
    ensures HistoryOk(After(s, step))
  {
    var c, n := s.configs[step.i], s.nodes[step.i];
    assert NodeOk(c, n, s.cast, |s.nodes|);
    if step.Decide? && n.role.Leader? {
      LeaderIsCutOff(c, n, s.cast, |s.nodes|);
      DecideOk(c, n, step.r, step.now, s.cast, |s.nodes|);
      RulingAdded(s, step);
    } else {
      hide *;
      NothingRuled(c, n, step);
      HistoryStays(s, step);
    }
  }

  lemma RulingAdded(s: Swarm, step: Step)
    requires Configured(s) && HistoryOk(s) && Enabled(s, step) && step.Decide?
    requires var (c, n) := (s.configs[step.i], s.nodes[step.i]);
             var m := Decided(c, n, step.r, step.now);
             && n.role.Leader? && !n.baseConnected && m.decisions != []
             && var d := m.decisions[|m.decisions| - 1];
             && m.decisions == n.decisions + [d] && d.escalationId == step.r.id
             && (step.r.level.Emergency? ==> d.verdict.Denied?)
    ensures HistoryOk(After(s, step))
  {
    hide Decided, RecordsOf;
    var t := After(s, step);
    var n, m := s.nodes[step.i], t.nodes[step.i];
    var r := Ruling(step.i, step.r, n.baseConnected, m.decisions[|m.decisions| - 1]);
    assert t.rulings == s.rulings + [r];
    forall i | i in t.nodes ensures RecordsOf(t.rulings, i) == t.nodes[i].decisions {
      RecordsSnoc(s.rulings, r, i);
      assert RecordsOf(s.rulings, i) + [] == RecordsOf(s.rulings, i);
    }
  }

  lemma NothingRuled(c: Config, n: Node, step: Step)
    requires !step.Decide? || !n.role.Leader?
    ensures Moved(c, n, step).decisions == n.decisions && Ruled(c, n, step) == []
  {
    if step.Decide? { NotLeader(c, n, step.r, step.now); } else { DecisionsOnlyByDecide(c, n, step); }
  }

  lemma HistoryStays(s: Swarm, step: Step)
    requires HistoryOk(s) && Enabled(s, step)
    requires var (c, n) := (s.configs[step.i], s.nodes[step.i]);
             Moved(c, n, step).decisions == n.decisions && Ruled(c, n, step) == []
    ensures HistoryOk(After(s, step))
  {
    hide Moved, Ruled, RecordsOf;
    assert After(s, step).rulings == s.rulings;
  }

  lemma LeaderIsCutOff(c: Config, n: Node, cast: set<Ballot>, size: nat)
    requires NodeOk(c, n, cast, size) && n.role.Leader?
    ensures !n.baseConnected
  {
  }

  lemma StepKeepsInv(s: Swarm, t: Swarm)
    requires Inv(s) && Next(s, t)
    ensures Inv(t) && s.cast <= t.cast && t.configs == s.configs && t.nodes.Keys == s.nodes.Keys
  {
    var step :| Enabled(s, step) && t == After(s, step);
    StepKeepsNodes(s, step);
    StepKeepsHistory(s, step);
  }

  lemma RunNext(run: seq<Swarm>, k: nat)
    requires IsRun(run) && k + 1 < |run|
    ensures Next(run[k], run[k + 1])
  {
  }

  lemma {:induction false} RunKeepsInv(run: seq<Swarm>, k: nat)
    requires IsRun(run) && k < |run|
    ensures Inv(run[k])
    decreases k
  {
    if k == 0 {
      InitialInv(run[0]);
    } else {
      hide *;
      RunKeepsInv(run, k - 1);
      RunNext(run, k - 1);
      StepKeepsInv(run[k - 1], run[k]);
    }
  }

  lemma {:induction false} HistoryGrows(run: seq<Swarm>, j: nat, k: nat)
    requires IsRun(run) && j <= k < |run|
    ensures run[j].cast <= run[k].cast && run[k].nodes.Keys == run[j].nodes.Keys
    decreases k - j
  {
    hide *;
    if j < k {
      HistoryGrows(run, j, k - 1);
      RunKeepsInv(run, k - 1);
      RunNext(run, k - 1);
      StepKeepsInv(run[k - 1], run[k]);
    }
  }

  // ---------------------------------------------------------------- what is never taken back

  /** A decision once logged stays, in its place. */
  lemma StepLogs(s: Swarm, t: Swarm, i: DroneId)
    requires Inv(s) && Next(s, t) && i in s.nodes && i in t.nodes
    ensures s.nodes[i].decisions <= t.nodes[i].decisions
  {
    hide Inv, Moved, Decided;
    var step :| Enabled(s, step) && t == After(s, step);
    if i == step.i {
      var c, n := s.configs[i], s.nodes[i];
      if step.Decide? && n.role.Leader? {
        var d := DecidedShape(c, n, step.r, step.now);
        DecideMoves(c, n, step);
      } else {
        NothingRuled(c, n, step);
      }
    }
  }

  lemma DecideMoves(c: Config, n: Node, step: Step)
    requires step.Decide?
    ensures Moved(c, n, step) == Decided(c, n, step.r, step.now)
  {
    hide Decided;
  }

  lemma {:induction false} LogsGrow(run: seq<Swarm>, j: nat, k: nat, i: DroneId)
    requires IsRun(run) && j <= k < |run| && i in run[j].nodes
    ensures i in run[k].nodes && run[j].nodes[i].decisions <= run[k].nodes[i].decisions
    ensures run[k].configs == run[j].configs
    decreases k - j
  {
    hide *;
    if j < k {
      LogsGrow(run, j, k - 1, i);
      RunKeepsInv(run, k - 1);
      RunNext(run, k - 1);
      StepKeepsInv(run[k - 1], run[k]);
      StepLogs(run[k - 1], run[k], i);
      PrefixTrans(run[j].nodes[i].decisions, run[k - 1].nodes[i].decisions, run[k].nodes[i].decisions);
    }
  }

  lemma PrefixTrans<T>(a: seq<T>, b: seq<T>, c: seq<T>)
    requires a <= b <= c
    ensures a <= c
  {
  }

  lemma {:induction false} CountGrows(a: seq<Decision>, b: seq<Decision>)
    requires a <= b
    ensures CountApproved(a) <= CountApproved(b)
    decreases |b|
  {
    if |a| < |b| {
      CountGrows(a, b[..|b| - 1]);
    } else {
      assert a == b;
    }
  }

  lemma ApprovalsCounted(s: Swarm, i: DroneId)
    requires Inv(s) && i in s.nodes
    ensures i in s.configs && s.nodes[i].approved == CountApproved(s.nodes[i].decisions) <= Budget(s.configs[i])
  {
    hide VotesHonoured, TallyBacked, DecisionsBacked, Quorum, OneVotePerTerm, VotersKnown, NetOk, HistoryOk;
    assert NodeOk(s.configs[i], s.nodes[i], s.cast, |s.nodes|);
  }

  /** The approval limit is one for the life of a drone: whatever elections it wins or loses, its counter
      never falls, is the number of approvals in its whole log, and never passes the limit. */
  lemma LifetimeLimit(run: seq<Swarm>, j: nat, k: nat, i: DroneId)
    requires IsRun(run) && j <= k < |run| && i in run[j].nodes
    ensures i in run[k].nodes && i in run[k].configs
    ensures run[j].nodes[i].approved <= run[k].nodes[i].approved <= Budget(run[k].configs[i])
    ensures run[k].nodes[i].approved == CountApproved(run[k].nodes[i].decisions)
  {
    hide *;
    LogsGrow(run, j, k, i);
    RunKeepsInv(run, j);
    RunKeepsInv(run, k);
    ApprovalsCounted(run[j], i);
    ApprovalsCounted(run[k], i);
    CountGrows(run[j].nodes[i].decisions, run[k].nodes[i].decisions);
  }

  // ---------------------------------------------------------------- the promises

  /** In no run are two different drones ever leader of the same term, at the same moment or
      at different ones. */
  lemma ElectionSafety(run: seq<Swarm>, j: nat, k: nat, a: DroneId, b: DroneId)
    requires IsRun(run) && j <= k < |run|
    requires a in run[j].nodes && run[j].nodes[a].role.Leader?
    requires b in run[k].nodes && run[k].nodes[b].role.Leader?
    requires run[j].nodes[a].term == run[k].nodes[b].term
    ensures a == b
  {
    var s, t := run[j], run[k];
    RunKeepsInv(run, j);
    RunKeepsInv(run, k);
    HistoryGrows(run, j, k);
    hide IsRun;
    var term := s.nodes[a].term;
    assert NodeOk(s.configs[a], s.nodes[a], s.cast, |s.nodes|) && NodeOk(t.configs[b], t.nodes[b], t.cast, |t.nodes|);
    QuorumGrows(s.cast, t.cast, |s.nodes|, term, a);
    assert |s.nodes| == |s.nodes.Keys| && |t.nodes| == |t.nodes.Keys|;
    QuorumsAgree(t.cast, t.nodes.Keys, term, a, b);
  }

  /** Decisions of one term all come from one drone, whenever and wherever they were recorded. */
  lemma OneAuthorityPerTerm(run: seq<Swarm>, k: nat, a: DroneId, d: Decision, b: DroneId, e: Decision)
    requires IsRun(run) && k < |run|
    requires a in run[k].nodes && d in run[k].nodes[a].decisions
    requires b in run[k].nodes && e in run[k].nodes[b].decisions
    requires d.term == e.term
    ensures d.decidedBy == e.decidedBy && a == b
  {
    var s := run[k];
    RunKeepsInv(run, k);
    hide IsRun;
    assert NodeOk(s.configs[a], s.nodes[a], s.cast, |s.nodes|) && NodeOk(s.configs[b], s.nodes[b], s.cast, |s.nodes|);
    assert |s.nodes| == |s.nodes.Keys|;
    QuorumsAgree(s.cast, s.nodes.Keys, d.term, a, b);
  }

  /** Approvals recorded for a term anywhere in the swarm. */
  function ApprovalsIn(rulings: seq<Ruling>, term: int): nat {
    if rulings == [] then 0
    else
      var d := rulings[|rulings| - 1].record;
      ApprovalsIn(rulings[..|rulings| - 1], term) + if d.term == term && d.verdict.Approved? then 1 else 0
  }

  lemma {:induction false} ApprovalsByOne(rulings: seq<Ruling>, term: int, i: DroneId)
    requires forall k :: 0 <= k < |rulings| && rulings[k].record.term == term ==> rulings[k].node == i
    ensures ApprovalsIn(rulings, term) <= CountApproved(RecordsOf(rulings, i))
    decreases |rulings|
  {
    if rulings != [] {
      var front, last := rulings[..|rulings| - 1], rulings[|rulings| - 1];
      ApprovalsByOne(front, term, i);
      if last.node == i {
        var ds := RecordsOf(front, i);
        assert (ds + [last.record])[..|ds|] == ds;
      } else {
        assert RecordsOf(front, i) + [] == RecordsOf(front, i);
      }
    }
  }

  lemma {:induction false} RulingRecorded(rulings: seq<Ruling>, k: nat)
    requires k < |rulings|
    ensures rulings[k].record in RecordsOf(rulings, rulings[k].node)
    decreases |rulings|
  {
    if k < |rulings| - 1 { RulingRecorded(rulings[..|rulings| - 1], k); }
  }

  /** With one rule set for all, a term sees at most `max_tasks_autonomous` approvals in the whole swarm. */
  lemma ApprovalsBounded(run: seq<Swarm>, k: nat, term: int, budget: nat)
    requires IsRun(run) && k < |run|
    requires forall i :: i in run[k].configs ==> Budget(run[k].configs[i]) == budget
    ensures ApprovalsIn(run[k].rulings, term) <= budget
  {
    var s := run[k];
    RunKeepsInv(run, k);
    if j :| 0 <= j < |s.rulings| && s.rulings[j].record.term == term {
      var i := s.rulings[j].node;
      assert i in s.nodes;
      forall l | 0 <= l < |s.rulings| && s.rulings[l].record.term == term ensures s.rulings[l].node == i {
        assert s.rulings[l].node in s.nodes;
        RulingRecorded(s.rulings, j);
        RulingRecorded(s.rulings, l);
        OneAuthorityPerTerm(run, k, i, s.rulings[j].record, s.rulings[l].node, s.rulings[l].record);
      }
      hide IsRun;
      ApprovalsByOne(s.rulings, term, i);
      assert NodeOk(s.configs[i], s.nodes[i], s.cast, |s.nodes|);
    } else {
      NoApprovals(s.rulings, term);
    }
  }

  lemma {:induction false} NoApprovals(rulings: seq<Ruling>, term: int)
    requires forall j :: 0 <= j < |rulings| ==> rulings[j].record.term != term
    ensures ApprovalsIn(rulings, term) == 0
    decreases |rulings|
  {
    if rulings != [] { NoApprovals(rulings[..|rulings| - 1], term); }
  }

  /** Every decision in a drone's log was made while its base link was marked lost, and none of
      them approves an emergency. */
  lemma DecisionsWithinRules(run: seq<Swarm>, k: nat, i: DroneId, d: Decision)
    requires IsRun(run) && k < |run| && i in run[k].nodes && d in run[k].nodes[i].decisions
    ensures exists j :: 0 <= j < |run[k].rulings| && var r := run[k].rulings[j];
              r.node == i && r.record == d && !r.baseConnected && r.request.id == d.escalationId
              && (r.request.level.Emergency? ==> d.verdict.Denied?)
  {
    RunKeepsInv(run, k);
    hide IsRun;
    var j := RulingFor(run[k].rulings, i, d);
    assert RulingOk(run[k].rulings[j]);
  }

  lemma {:induction false} RulingFor(rulings: seq<Ruling>, i: DroneId, d: Decision) returns (j: nat)
    requires d in RecordsOf(rulings, i)
    ensures j < |rulings| && rulings[j].node == i && rulings[j].record == d
    decreases |rulings|
  {
    var front, last := rulings[..|rulings| - 1], rulings[|rulings| - 1];
    if last.node == i && last.record == d {
      j := |rulings| - 1;
    } else {
      j := RulingFor(front, i, d);
    }
  }

  /** A drone that acts as candidate or leader has lost its base link. */
  lemma AuthorityOnlyWhenCutOff(run: seq<Swarm>, k: nat, i: DroneId)
    requires IsRun(run) && k < |run| && i in run[k].nodes && !run[k].nodes[i].role.Follower?
    ensures !run[k].nodes[i].baseConnected
  {
    RunKeepsInv(run, k);
    assert NodeOk(run[k].configs[i], run[k].nodes[i], run[k].cast, |run[k].nodes|);
  }
}
