/** One drone's leader-election state machine (swarm_consensus.py). Every reading of the
    clock and every random timeout is a parameter. */
module Consensus {
  import opened Wrappers

  type DroneId = string

  datatype Role = Follower | Candidate | Leader

  datatype Level = Auto | Notify | ApproveRequired | Emergency

  datatype Verdict = Approved | Denied

  datatype Request = Request(id: string, taskId: string, level: Level)

  datatype Response = Response(escalationId: string, approved: bool, respondedBy: string)

  datatype Decision = Decision(escalationId: string, taskId: string, verdict: Verdict, decidedBy: DroneId,
                               term: int, timestamp: real, reason: string)

  datatype Rules = Rules(maxTasks: int, rtlOnTimeout: bool, timeoutS: real)

  datatype Config = Config(id: DroneId, peers: seq<DroneId>, rules: Rules, commsTimeoutS: real)

  datatype Node = Node(
    role: Role, term: int, votedFor: Option<DroneId>, leaderId: Option<DroneId>,
    lastHeartbeat: real, votes: set<DroneId>,
    baseLastSeen: real, baseConnected: bool, autonomousStart: Option<real>,
    approved: int, decisions: seq<Decision>, running: bool)

  /** The clock readings and the random draw of one turn of the main loop. */
  datatype Clock = Clock(check: real, lost: real, tick: real, timeout: real, election: real, rtl: real)

  function Fresh(now: real): Node {
    Node(Follower, 0, None, None, now, {}, now, true, None, 0, [], false)
  }

  /** `(len(known_peers) + 1) // 2 + 1`. */
  function Needed(c: Config): nat {
    (|c.peers| + 1) / 2 + 1
  }

  // ---------------------------------------------------------------- the handlers as functions of the state

  function BaseHeard(n: Node, now: real): Node {
    if n.baseConnected then n.(baseLastSeen := now)
    else n.(baseLastSeen := now, baseConnected := true, role := Follower, leaderId := None, autonomousStart := None)
  }

  function Elect(c: Config, n: Node, now: real): Node {
    n.(term := n.term + 1, role := Candidate, votedFor := Some(c.id), votes := {c.id}, lastHeartbeat := now)
  }

  /** A candidate may win and, in the same tick, time out and step back. */
  function Tick(c: Config, n: Node, k: Clock): Node {
    match n.role
    case Follower => if k.tick - n.lastHeartbeat > k.timeout then Elect(c, n, k.election) else n
    case Candidate =>
      var won := if |n.votes| >= Needed(c) then n.(role := Leader, leaderId := Some(c.id)) else n;
      if k.tick - n.lastHeartbeat > k.timeout * 2.0 then won.(role := Follower) else won
    case Leader => n
  }

  function BaseChecked(c: Config, n: Node, k: Clock): Node {
    if k.check - n.baseLastSeen > c.commsTimeoutS && n.baseConnected
    then n.(baseConnected := false, autonomousStart := Some(k.lost)) else n
  }

  function RtlChecked(c: Config, n: Node, k: Clock): Node {
    if c.rules.rtlOnTimeout && n.autonomousStart.Some? && n.autonomousStart.value != 0.0
       && k.rtl - n.autonomousStart.value > c.rules.timeoutS
    then n.(running := false) else n
  }

  function Polled(c: Config, n: Node, k: Clock): Node {
    var m := BaseChecked(c, n, k);
    if m.baseConnected then m else RtlChecked(c, Tick(c, m, k), k)
  }

  /** The state after a vote request, before the decision to grant it. */
  function TermSeen(n: Node, term: int): Node {
    if term > n.term then n.(term := term, role := Follower, votedFor := None) else n
  }

  predicate Grants(n: Node, candidate: DroneId, term: int) {
    var m := TermSeen(n, term);
    term == m.term && (m.votedFor == None || m.votedFor == Some(candidate))
  }

  function VoteRequested(n: Node, candidate: DroneId, term: int, now: real): Node {
    var m := TermSeen(n, term);
    if Grants(n, candidate, term) then m.(votedFor := Some(candidate), lastHeartbeat := now) else m
  }

  /** The role is not looked at. */
  function VoteCounted(n: Node, voter: DroneId, term: int, granted: bool): Node {
    if term == n.term && granted then n.(votes := n.votes + {voter}) else n
  }

  /** The term may rise while `votedFor` and `votes` keep what an earlier term left. */
  function LeaderHeard(n: Node, leader: DroneId, term: int, now: real): Node {
    if term >= n.term then n.(term := term, role := Follower, leaderId := Some(leader), lastHeartbeat := now) else n
  }

  function Record(c: Config, n: Node, r: Request, verdict: Verdict, now: real, reason: string): Node {
    n.(decisions := n.decisions + [Decision(r.id, r.taskId, verdict, c.id, n.term, now, reason)])
  }

  function Decided(c: Config, n: Node, r: Request, now: real): Node {
    if !n.role.Leader? then n
    else if n.approved >= c.rules.maxTasks then Record(c, n, r, Denied, now, "max_tasks_reached")
    else if r.level.Emergency? then Record(c, n, r, Denied, now, "emergency_requires_human")
    else Record(c, n.(approved := n.approved + 1), r, Approved, now, "roe_compliant")
  }

  // ---------------------------------------------------------------- the object

  class SwarmConsensus {
    const config: Config
    var role: Role
    var term: int
    var votedFor: Option<DroneId>
    var leaderId: Option<DroneId>
    var lastHeartbeat: real
    var votes: set<DroneId>
    var baseLastSeen: real
    var baseConnected: bool
    var autonomousStart: Option<real>
    var approved: int
    var decisions: seq<Decision>
    var running: bool

    ghost function State(): Node
      reads this
    {
      Node(role, term, votedFor, leaderId, lastHeartbeat, votes, baseLastSeen, baseConnected, autonomousStart,
           approved, decisions, running)
    }

    constructor (config: Config, now: real)
      ensures this.config == config && State() == Fresh(now)
    {
      this.config := config;
      role, term, votedFor, leaderId, lastHeartbeat, votes := Follower, 0, None, None, now, {};
      baseLastSeen, baseConnected, autonomousStart := now, true, None;
      approved, decisions, running := 0, [], false;
    }

    method OnBaseHeartbeat(now: real)
      modifies this
      ensures State() == BaseHeard(old(State()), now)
      ensures baseConnected && baseLastSeen == now && (!old(baseConnected) ==> role == Follower && leaderId == None)
    {
      baseLastSeen := now;
      if !baseConnected {
        baseConnected := true;
        role := Follower;
        leaderId := None;
        autonomousStart := None;
      }
    }

    /** One turn of the loop in `run`. */
    method Poll(k: Clock)
      modifies this
      ensures State() == Polled(config, old(State()), k)
      ensures baseConnected <==> old(baseConnected) && k.check - old(baseLastSeen) <= config.commsTimeoutS
      ensures baseConnected ==> role == old(role) && term == old(term) && running == old(running)
      ensures autonomousStart == if old(baseConnected) && !baseConnected then Some(k.lost) else old(autonomousStart)
      ensures running <==>
                && old(running)
                && (baseConnected || !config.rules.rtlOnTimeout || autonomousStart.None? || autonomousStart.value == 0.0
                    || k.rtl - autonomousStart.value <= config.rules.timeoutS)
    {
      var elapsed := k.check - baseLastSeen;
      if elapsed > config.commsTimeoutS && baseConnected {
        baseConnected := false;
        autonomousStart := Some(k.lost);
      }
      if !baseConnected {
        ConsensusTick(k);
        if config.rules.rtlOnTimeout && autonomousStart.Some? && autonomousStart.value != 0.0 {
          var autonomousElapsed := k.rtl - autonomousStart.value;
          if autonomousElapsed > config.rules.timeoutS {
            running := false;
          }
        }
      }
    }

    method ConsensusTick(k: Clock)
      modifies this
      ensures State() == Tick(config, old(State()), k)
      // A follower out of patience stands; a candidate with more than half of all votes leads; one whose
      // doubled patience is over follows again, elected or not.
      ensures old(role) == Follower ==> role == if k.tick - old(lastHeartbeat) > k.timeout then Candidate else Follower
      ensures old(role) == Candidate ==>
                && (leaderId == Some(config.id) <==>
                      2 * |votes| > |config.peers| + 1 || old(leaderId) == Some(config.id))
                && (role == Follower <==> k.tick - old(lastHeartbeat) > 2.0 * k.timeout)
                && (role == Leader ==> leaderId == Some(config.id))
      ensures old(role) == Leader ==> State() == old(State())
      ensures term == old(term) + if old(role) == Follower && role == Candidate then 1 else 0
    {
      match role
      case Follower =>
        if k.tick - lastHeartbeat > k.timeout {
          StartElection(k.election);
        }
      case Candidate =>
        var needed := (|config.peers| + 1) / 2 + 1;
        if |votes| >= needed {
          role := Leader;
          leaderId := Some(config.id);
        }
        if k.tick - lastHeartbeat > k.timeout * 2.0 {
          role := Follower;
        }
      case Leader =>
    }

    method StartElection(now: real)
      modifies this
      ensures State() == Elect(config, old(State()), now)
      ensures role == Candidate && term == old(term) + 1 && votedFor == Some(config.id) && votes == {config.id}
    {
      term := term + 1;
      role := Candidate;
      votedFor := Some(config.id);
      votes := {config.id};
      lastHeartbeat := now;
    }

    method OnVoteRequest(candidate: DroneId, requestTerm: int, now: real) returns (granted: bool)
      modifies this
      ensures State() == VoteRequested(old(State()), candidate, requestTerm, now)
      ensures granted == Grants(old(State()), candidate, requestTerm)
      // A request of a higher term is always granted, one of the same term unless the vote is another's.
      ensures granted <==>
                || requestTerm > old(term)
                || (requestTerm == old(term) && (old(votedFor) == None || old(votedFor) == Some(candidate)))
      ensures term == if requestTerm > old(term) then requestTerm else old(term)
      ensures role == if requestTerm > old(term) then Follower else old(role)
      ensures votedFor == (if granted then Some(candidate) else old(votedFor))
      ensures lastHeartbeat == if granted then now else old(lastHeartbeat)
      ensures votes == old(votes) && leaderId == old(leaderId)
    {
      if requestTerm > term {
        term := requestTerm;
        role := Follower;
        votedFor := None;
      }
      if requestTerm == term && (votedFor == None || votedFor == Some(candidate)) {
        votedFor := Some(candidate);
        lastHeartbeat := now;
        return true;
      }
      return false;
    }

    method OnVoteResponse(voter: DroneId, responseTerm: int, granted: bool)
      modifies this
      ensures State() == VoteCounted(old(State()), voter, responseTerm, granted)
      ensures votes == old(votes) + (if granted && responseTerm == old(term) then {voter} else {})
      ensures term == old(term) && role == old(role) && votedFor == old(votedFor) && leaderId == old(leaderId)
    {
      if responseTerm == term && granted {
        votes := votes + {voter};
      }
    }

    method OnLeaderHeartbeat(leader: DroneId, leaderTerm: int, now: real)
      modifies this
      ensures State() == LeaderHeard(old(State()), leader, leaderTerm, now)
      ensures leaderTerm >= old(term) ==> term == leaderTerm && role == Follower && leaderId == Some(leader)
      ensures leaderTerm < old(term) ==> State() == old(State())
      ensures votedFor == old(votedFor) && votes == old(votes)
    {
      if leaderTerm >= term {
        term := leaderTerm;
        role := Follower;
        leaderId := Some(leader);
        lastHeartbeat := now;
      }
    }

    method DecideEscalation(r: Request, now: real) returns (response: Option<Response>)
      modifies this
      ensures State() == Decided(config, old(State()), r, now)
      ensures response.Some? <==> old(role).Leader?
      ensures response.Some? ==>
                && response.value.escalationId == r.id
                && (response.value.approved <==> old(approved) < config.rules.maxTasks && !r.level.Emergency?)
                && approved == (if response.value.approved then old(approved) + 1 else old(approved))
                && |decisions| == |old(decisions)| + 1 && old(decisions) < decisions
                && (decisions[|decisions| - 1].verdict.Approved? <==> response.value.approved)
                && response.value.respondedBy == "autonomous:" + config.id
    {
      if role != Leader {
        return None;
      }
      var responder := "autonomous:" + config.id;
      if approved >= config.rules.maxTasks {
        RecordDecision(r, Denied, now, "max_tasks_reached");
        return Some(Response(r.id, false, responder));
      }
      if r.level == Emergency {
        RecordDecision(r, Denied, now, "emergency_requires_human");
        return Some(Response(r.id, false, responder));
      }
      approved := approved + 1;
      RecordDecision(r, Approved, now, "roe_compliant");
      return Some(Response(r.id, true, responder));
    }

    method RecordDecision(r: Request, verdict: Verdict, now: real, reason: string)
      modifies this`decisions
      ensures State() == Record(config, old(State()), r, verdict, now, reason)
    {
      decisions := decisions + [Decision(r.id, r.taskId, verdict, config.id, term, now, reason)];
    }

    method Start()
      modifies this`running
      ensures State() == old(State()).(running := true)
    {
      running := true;
    }

    method Stop()
      modifies this`running
      ensures State() == old(State()).(running := false)
    {
      running := false;
    }
  }
}
