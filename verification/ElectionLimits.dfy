/**
 * Runs of three nodes that show why the theorems about leaders and about crashes exclude the mismatch-reject
 * branch with a newer term, which leaves the role and the vote of an older term in place, and failed saves of a vote.
 */
module ElectionLimits {
  import opened RaftTypes
  import opened RaftCore
  import opened NodeRuns
  import opened RaftCluster
  import opened ElectionSafety

  const BLANK := HardState(0, None)

  /** Nodes with empty logs that have just started for the first time. */
  function NewCluster(voters: set<NodeId>): Cluster {
    Cluster(map id | id in voters :: InitialNode(id, voters, 1, BLANK), map id | id in voters :: BLANK, {}, {})
  }

  lemma NewNode(id: NodeId, voters: set<NodeId>)
    requires id in voters
    ensures var n := NewCluster(voters).nodes[id];
            && Started(n, id, voters, BLANK)
            && |n.voters| == |voters|
            && n.lastLogIndex == n.lastLogTerm == 0
            && NewCluster(voters).saved[id] == BLANK
  {
    assert InitialNode(id, voters, 1, BLANK).voters.Keys == voters;
  }

  lemma NewClusterInit(voters: set<NodeId>)
    ensures Init(NewCluster(voters), voters)
  {
    var k := NewCluster(voters);
    forall id | id in voters
      ensures Started(k.nodes[id], id, voters, k.saved[id])
    {
      NewNode(id, voters);
    }
  }

  lemma Join(states: seq<Cluster>, acts: seq<Action>, states': seq<Cluster>, acts': seq<Action>)
    requires ValidRun(states, acts) && ValidRun(states', acts') && states[|acts|] == states'[0]
    ensures ValidRun(states + states'[1..], acts + acts')
  {
    var s, t := states + states'[1..], acts + acts';
    forall k | 0 <= k < |t|
      ensures Steps(s[k], t[k], s[k + 1])
    {
      if k < |acts| {
        assert Steps(states[k], acts[k], states[k + 1]);
      } else {
        var j := k - |acts|;
        assert Steps(states'[j], acts'[j], states'[j + 1]);
        assert s[k] == states'[j] && s[k + 1] == states'[j + 1];
      }
    }
  }

  function Asked(n: Node): Node {
    n.(currentTerm := n.currentTerm + 1, votedFor := Some(n.id), grantedVotes := {n.id}, role := Candidate)
  }

  /** v votes for x in the given term: it steps up to that term, or already holds that very vote. */
  function Voted(n: Node, term: nat, x: NodeId): Node {
    if n.currentTerm < term then StepDown(n, term, None).(votedFor := Some(x)) else n
  }

  predicate CanPoll(x: Node, v: Node) {
    && v.id in x.voters && x.id != v.id
    && x.lastLogIndex == v.lastLogIndex == 0 && x.lastLogTerm == v.lastLogTerm == 0
    && (v.currentTerm <= x.currentTerm || (v.currentTerm == x.currentTerm + 1 && v.votedFor == Some(x.id)))
  }

  lemma PollHandled(x: Node, v: Node)
    requires CanPoll(x, v)
    ensures var request := VoteRequest(x.currentTerm + 1, x.id, 0, 0);
            && Handle(x, ElectionTimeout)
                 == Transition(Asked(x), Done(Some(SendRequestVotes(Asked(x).Hard(), Peers(x), request))))
            && Handle(v, RequestVote(request))
                 == Transition(Voted(v, request.term, x.id), Done(Some(SendRequestVoteResponse(
                      if v.currentTerm < request.term then Some(HardState(request.term, Some(x.id))) else None,
                      x.id, VoteResponse(request.term, true)))))
  {
  }

  lemma Step(c: Cluster, id: NodeId, ev: Event, t: Transition) returns (c': Cluster)
    requires id in c.nodes && id in c.saved && Deliverable(c, id, ev) && t == Handle(c.nodes[id], ev)
    ensures Steps(c, Deliver(id, ev), c') && c' == Applied(c, id, t)
  {
    c' := Applied(c, id, t);
  }

  predicate Here(c: Cluster, x: NodeId) {
    x in c.nodes && x in c.saved && c.nodes[x].id == x
  }

  function Request(c: Cluster, x: NodeId): VoteRequest
    requires x in c.nodes
  {
    VoteRequest(c.nodes[x].currentTerm + 1, x, 0, 0)
  }

  /** x asks for votes in a new term and v grants. */
  lemma Poll(c: Cluster, x: NodeId, v: NodeId) returns (c1: Cluster, c2: Cluster)
    requires Here(c, x) && Here(c, v) && CanPoll(c.nodes[x], c.nodes[v])
    ensures Steps(c, Deliver(x, ElectionTimeout), c1)
    ensures Steps(c1, Deliver(v, RequestVote(Request(c, x))), c2)
    ensures var term := c.nodes[x].currentTerm + 1;
            && c2.nodes == c.nodes[x := Asked(c.nodes[x])][v := Voted(c.nodes[v], term, x)]
            && c2.saved == c.saved[x := HardState(term, Some(x))]
                            [v := if c.nodes[v].currentTerm < term then HardState(term, Some(x)) else c.saved[v]]
            && VoteResponseMessage(v, x, VoteResponse(term, true)) in c2.sent
  {
    PollHandled(c.nodes[x], c.nodes[v]);
    c1 := Step(c, x, ElectionTimeout, Handle(c.nodes[x], ElectionTimeout));
    var m := VoteRequestMessage(Peers(c.nodes[x]), Request(c, x));
    assert m in c1.sent && v in m.peers;
    assert c1.nodes[v] == c.nodes[v];
    c2 := Step(c1, v, RequestVote(Request(c, x)), Handle(c.nodes[v], RequestVote(Request(c, x))));
  }

  lemma VoteWins(x: Node, v: NodeId)
    requires x.role == Candidate && v in x.voters && x.grantedVotes == {x.id} && x.id != v && |x.voters| == 3
    ensures var t := Handle(x, VoteReceived(v, VoteResponse(x.currentTerm, true)));
            && t.node == x.(role := Leader, grantedVotes := {x.id, v})
            && t.outcome == Done(Some(LeaderHeartbeat(x)))
  {
    assert x.grantedVotes + {v} == {x.id, v};
    assert |{x.id, v}| == 2;
  }

  /** A poll, as a run of two actions. */
  lemma PollRun(c: Cluster, x: NodeId, v: NodeId) returns (states: seq<Cluster>, acts: seq<Action>)
    requires Here(c, x) && Here(c, v) && CanPoll(c.nodes[x], c.nodes[v])
    ensures ValidRun(states, acts) && |acts| == 2 && states[0] == c && acts[0].Deliver? && acts[1].Deliver?
    ensures NoAppends(acts)
    ensures Polled(c, states[2], x, v)
  {
    var c1, c2 := Poll(c, x, v);
    states, acts := [c, c1, c2], [Deliver(x, ElectionTimeout), Deliver(v, RequestVote(Request(c, x)))];
  }

  /** x asked for votes in the next term and v answered with a vote. */
  predicate Polled(c: Cluster, c': Cluster, x: NodeId, v: NodeId)
    requires Here(c, x) && Here(c, v)
  {
    var term := c.nodes[x].currentTerm + 1;
    && c'.nodes == c.nodes[x := Asked(c.nodes[x])][v := Voted(c.nodes[v], term, x)]
    && c'.saved == c.saved[x := HardState(term, Some(x))]
                    [v := if c.nodes[v].currentTerm < term then HardState(term, Some(x)) else c.saved[v]]
    && VoteResponseMessage(v, x, VoteResponse(term, true)) in c'.sent
  }

  lemma CountVote(c: Cluster, x: NodeId, v: NodeId) returns (states: seq<Cluster>, acts: seq<Action>)
    requires Here(c, x) && x != v && c.nodes[x].role == Candidate && v in c.nodes[x].voters && |c.nodes[x].voters| == 3
    requires c.nodes[x].grantedVotes == {x}
    requires VoteResponseMessage(v, x, VoteResponse(c.nodes[x].currentTerm, true)) in c.sent
    ensures ValidRun(states, acts) && |acts| == 1 && states[0] == c && acts[0].Deliver? && NoAppends(acts)
    ensures states[1].nodes == c.nodes[x := c.nodes[x].(role := Leader, grantedVotes := {x, v})]
    ensures states[1].saved == c.saved
  {
    var vote := VoteReceived(v, VoteResponse(c.nodes[x].currentTerm, true));
    VoteWins(c.nodes[x], v);
    var c' := Step(c, x, vote, Handle(c.nodes[x], vote));
    states, acts := [c, c'], [Deliver(x, vote)];
  }

  /** A poll whose vote is then counted, which makes x leader. */
  lemma Elect(c: Cluster, x: NodeId, v: NodeId) returns (states: seq<Cluster>, acts: seq<Action>)
    requires Here(c, x) && Here(c, v) && CanPoll(c.nodes[x], c.nodes[v]) && |c.nodes[x].voters| == 3
    ensures ValidRun(states, acts) && |acts| == 3 && states[0] == c
    ensures acts[0].Deliver? && acts[1].Deliver? && acts[2].Deliver? && NoAppends(acts)
    ensures Wins(states[2], states[3], x)
    ensures var term := c.nodes[x].currentTerm + 1;
            && states[3].nodes == c.nodes[v := Voted(c.nodes[v], term, x)]
                                   [x := Asked(c.nodes[x]).(role := Leader, grantedVotes := {x, v})]
            && states[3].saved == c.saved[x := HardState(term, Some(x))]
                 [v := if c.nodes[v].currentTerm < term then HardState(term, Some(x)) else c.saved[v]]
  {
    var s1, a1 := PollRun(c, x, v);
    var s2, a2 := CountVote(s1[2], x, v);
    Join(s1, a1, s2, a2);
    states, acts := s1 + s2[1..], a1 + a2;
  }

  /** A mismatching append request of a newer term raises the term of a node and leaves role and vote. */
  lemma Raise(c: Cluster, id: NodeId, leader: NodeId, term: nat) returns (states: seq<Cluster>, acts: seq<Action>)
    requires Here(c, id) && c.nodes[id].currentTerm < term && c.nodes[id].lastLogIndex == 0
    ensures ValidRun(states, acts) && |acts| == 1 && states[0] == c && acts[0].Deliver?
    ensures states[1].nodes == c.nodes[id := c.nodes[id].(currentTerm := term, leaderId := Some(leader))]
    ensures states[1].saved == c.saved
  {
    var ev := AppendEntries(1, AppendRequest(term, leader, 1, 0, 0), None);
    var c' := Step(c, id, ev, Handle(c.nodes[id], ev));
    states, acts := [c, c'], [Deliver(id, ev)];
  }

  lemma Restart(c: Cluster, id: NodeId) returns (states: seq<Cluster>, acts: seq<Action>)
    requires Here(c, id)
    ensures ValidRun(states, acts) && |acts| == 1 && states[0] == c && NoAppends(acts)
    ensures states[1].nodes == c.nodes[id := InitialNode(id, c.nodes[id].voters.Keys, 1, c.saved[id])]
    ensures states[1].saved == c.saved
  {
    var crash := Crash(id, None, 1);
    assert c.saved[id := c.saved[id]] == c.saved;
    states, acts := [c, Next(c, crash)], [crash];
  }

  lemma Timeout(c: Cluster, id: NodeId) returns (states: seq<Cluster>, acts: seq<Action>)
    requires Here(c, id)
    ensures ValidRun(states, acts) && |acts| == 1 && states[0] == c
    ensures states[1].nodes == c.nodes[id := Asked(c.nodes[id])]
    ensures states[1].saved.Keys == c.saved.Keys + {id}
  {
    var c' := Step(c, id, ElectionTimeout, Handle(c.nodes[id], ElectionTimeout));
    states, acts := [c, c'], [Deliver(id, ElectionTimeout)];
  }

  predicate ThreeVoters(voters: set<NodeId>, a: NodeId, b: NodeId, c: NodeId) {
    a in voters && b in voters && c in voters && a != b && b != c && a != c && |voters| == 3
  }

  /** A node of three that has just started for the first time. */
  predicate Blank(k: Cluster, id: NodeId, a: NodeId, b: NodeId, c: NodeId) {
    && Here(k, id)
    && var n := k.nodes[id];
       && a in n.voters && b in n.voters && c in n.voters && |n.voters| == 3
       && n.lastLogIndex == n.lastLogTerm == n.currentTerm == 0 && n.votedFor == None && k.saved[id] == BLANK
  }

  lemma NewNodeIsBlank(voters: set<NodeId>, a: NodeId, b: NodeId, c: NodeId, id: NodeId)
    requires ThreeVoters(voters, a, b, c) && id in voters
    ensures Blank(NewCluster(voters), id, a, b, c)
  {
    NewNode(id, voters);
  }

  lemma BlankStart(voters: set<NodeId>, a: NodeId, b: NodeId, c: NodeId) returns (start: Cluster)
    requires ThreeVoters(voters, a, b, c)
    ensures Init(start, voters)
    ensures Blank(start, a, a, b, c) && Blank(start, b, a, b, c) && Blank(start, c, a, b, c)
  {
    start := NewCluster(voters);
    NewClusterInit(voters);
    NewNodeIsBlank(voters, a, b, c, a);
    NewNodeIsBlank(voters, a, b, c, b);
    NewNodeIsBlank(voters, a, b, c, c);
  }

  lemma TwoLeaders(start: Cluster, a: NodeId, b: NodeId, c: NodeId) returns (states: seq<Cluster>, acts: seq<Action>)
    requires a != b && b != c && a != c
    requires Blank(start, a, a, b, c) && Blank(start, b, a, b, c) && Blank(start, c, a, b, c)
    ensures ValidRun(states, acts) && |acts| == 7 && states[0] == start && CrashFree(acts)
    ensures LeadsIn(states[7], a, 2) && LeadsIn(states[7], b, 2)
  {
    var s1, a1 := Elect(start, a, b);
    var s2, a2 := Elect(s1[3], b, c);
    var s3, a3 := Raise(s2[3], a, b, 2);
    Join(s1, a1, s2, a2);
    Join(s1 + s2[1..], a1 + a2, s3, a3);
    states, acts := s1 + s2[1..] + s3[1..], a1 + a2 + a3;
  }

  /** Without a restriction on the mismatch-reject branch, two nodes can be leader in one term. */
  lemma TwoLeadersInOneTerm(voters: set<NodeId>, a: NodeId, b: NodeId, c: NodeId)
    returns (states: seq<Cluster>, acts: seq<Action>)
    requires ThreeVoters(voters, a, b, c)
    ensures ValidRun(states, acts) && Init(states[0], voters) && CrashFree(acts)
    ensures LeadsIn(states[|acts|], a, 2) && LeadsIn(states[|acts|], b, 2)
  {
    var start := BlankStart(voters, a, b, c);
    states, acts := TwoLeaders(start, a, b, c);
  }

  lemma FirstWinner(start: Cluster, a: NodeId, b: NodeId, c: NodeId) returns (states: seq<Cluster>, acts: seq<Action>)
    requires a != b && b != c && a != c
    requires Blank(start, a, a, b, c) && Blank(start, b, a, b, c) && Blank(start, c, a, b, c)
    ensures ValidRun(states, acts) && |acts| == 6 && states[0] == start
    ensures Wins(states[5], states[6], a) && states[6].nodes[a].currentTerm == 2
    ensures Blank(states[6], b, a, b, c) && Here(states[6], c) && states[6].saved[c] == HardState(1, Some(a))
  {
    // c votes for a in term 1 and saves that, then a mismatching append request takes it to term 2, vote and all.
    var s1, a1 := PollRun(start, a, c);
    var s2, a2 := Raise(s1[2], c, b, 2);
    // a asks again in term 2; c answers with a vote it does not save, and a wins.
    var s3, a3 := Elect(s2[1], a, c);
    Join(s1, a1, s2, a2);
    Join(s1 + s2[1..], a1 + a2, s3, a3);
    states, acts := s1 + s2[1..] + s3[1..], a1 + a2 + a3;
  }

  lemma SecondWinner(start: Cluster, a: NodeId, b: NodeId, c: NodeId) returns (states: seq<Cluster>, acts: seq<Action>)
    requires b != c && Blank(start, b, a, b, c) && Here(start, c) && start.saved[c].currentTerm == 1
    ensures ValidRun(states, acts) && |acts| == 5 && states[0] == start
    ensures Wins(states[4], states[5], b) && states[5].nodes[b].currentTerm == 2
  {
    // c forgets term 2, so b can win it as well.
    var s1, a1 := Restart(start, c);
    var s2, a2 := Timeout(s1[1], b);
    var s3, a3 := Elect(s2[1], b, c);
    Join(s1, a1, s2, a2);
    Join(s1 + s2[1..], a1 + a2, s3, a3);
    states, acts := s1 + s2[1..] + s3[1..], a1 + a2 + a3;
  }

  lemma TwoWinners(start: Cluster, a: NodeId, b: NodeId, c: NodeId) returns (states: seq<Cluster>, acts: seq<Action>)
    requires a != b && b != c && a != c
    requires Blank(start, a, a, b, c) && Blank(start, b, a, b, c) && Blank(start, c, a, b, c)
    ensures ValidRun(states, acts) && states[0] == start && |acts| == 11
    ensures WinsAt(states, acts, 5, a, 2) && WinsAt(states, acts, 10, b, 2)
  {
    var s1, a1 := FirstWinner(start, a, b, c);
    var s2, a2 := SecondWinner(s1[6], a, b, c);
    Join(s1, a1, s2, a2);
    states, acts := s1 + s2[1..], a1 + a2;
    assert states[10] == s2[4] && states[11] == s2[5];
  }

  /** Without that restriction, one crash lets two nodes win an election in one term. */
  lemma TwoWinnersAfterCrash(voters: set<NodeId>, a: NodeId, b: NodeId, c: NodeId)
    returns (states: seq<Cluster>, acts: seq<Action>, i: nat, j: nat)
    requires ThreeVoters(voters, a, b, c)
    ensures ValidRun(states, acts) && Init(states[0], voters)
    ensures WinsAt(states, acts, i, a, 2) && WinsAt(states, acts, j, b, 2)
  {
    var start := BlankStart(voters, a, b, c);
    states, acts := TwoWinners(start, a, b, c);
    i, j := 5, 10;
  }

  // ---- A failed save ----

  /**
   * v grants the request of x twice: the first time saving the vote fails, the second time there is nothing to save.
   */
  lemma UnsavedVote(k: Cluster, x: NodeId, v: NodeId) returns (c1: Cluster, c2: Cluster)
    requires Here(k, v) && k.nodes[v].lastLogIndex == k.nodes[v].lastLogTerm == 0 && x != v
    requires exists m :: m in k.sent && m.VoteRequestMessage? && v in m.peers && m.request == VoteRequest(1, x, 0, 0)
    requires k.nodes[v].currentTerm == 0
    ensures Steps(k, FailedSave(v, RequestVote(VoteRequest(1, x, 0, 0))), c1)
    ensures Steps(c1, Deliver(v, RequestVote(VoteRequest(1, x, 0, 0))), c2)
    ensures c2.nodes == k.nodes[v := Voted(k.nodes[v], 1, x)] && c2.saved == k.saved
    ensures VoteResponseMessage(v, x, VoteResponse(1, true)) in c2.sent
  {
    var ev, n := RequestVote(VoteRequest(1, x, 0, 0)), k.nodes[v];
    c1 := Next(k, FailedSave(v, ev));
    assert c1.nodes[v] == Voted(n, 1, x) && c1.sent == k.sent;
    assert k.saved[v := k.saved[v]] == k.saved;
    c2 := Step(c1, v, ev, Handle(c1.nodes[v], ev));
    assert c2.nodes == k.nodes[v := Voted(n, 1, x)];
  }

  /** No event of the run is an append request, so the mismatch-reject branch is never taken. */
  predicate NoAppends(acts: seq<Action>) {
    forall k :: 0 <= k < |acts| && !acts[k].Crash? ==> !acts[k].ev.AppendEntries?
  }

  lemma UnsavedPoll(start: Cluster, a: NodeId, c: NodeId) returns (states: seq<Cluster>, acts: seq<Action>)
    requires Here(start, a) && Here(start, c) && CanPoll(start.nodes[a], start.nodes[c])
    requires start.nodes[a].currentTerm == start.nodes[c].currentTerm == 0
    ensures ValidRun(states, acts) && |acts| == 3 && states[0] == start && NoAppends(acts)
    ensures states[3].nodes == start.nodes[a := Asked(start.nodes[a])][c := Voted(start.nodes[c], 1, a)]
    ensures states[3].saved == start.saved[a := HardState(1, Some(a))]
    ensures VoteResponseMessage(c, a, VoteResponse(1, true)) in states[3].sent
  {
    PollHandled(start.nodes[a], start.nodes[c]);
    var s1 := Step(start, a, ElectionTimeout, Handle(start.nodes[a], ElectionTimeout));
    var m := VoteRequestMessage(Peers(start.nodes[a]), VoteRequest(1, a, 0, 0));
    assert m in s1.sent && c in m.peers;
    var s2, s3 := UnsavedVote(s1, a, c);
    var request := RequestVote(VoteRequest(1, a, 0, 0));
    states := [start, s1, s2, s3];
    acts := [Deliver(a, ElectionTimeout), FailedSave(c, request), Deliver(c, request)];
  }

  lemma UnsavedWinner(start: Cluster, a: NodeId, b: NodeId, c: NodeId)
    returns (states: seq<Cluster>, acts: seq<Action>)
    requires a != b && b != c && a != c
    requires Blank(start, a, a, b, c) && Blank(start, b, a, b, c) && Blank(start, c, a, b, c)
    ensures ValidRun(states, acts) && |acts| == 4 && states[0] == start && NoAppends(acts)
    ensures Wins(states[3], states[4], a) && states[4].nodes[a].currentTerm == 1
    ensures Blank(states[4], b, a, b, c) && Here(states[4], c) && states[4].saved[c] == BLANK
    ensures states[4].nodes[c].voters == start.nodes[c].voters
  {
    var s, t := UnsavedPoll(start, a, c);
    var s4, a4 := CountVote(s[3], a, c);
    Join(s, t, s4, a4);
    states, acts := s + s4[1..], t + a4;
  }

  /** Without append requests at all, one failed save and one crash let two nodes win an election in one term. */
  lemma TwoWinnersAfterFailedSave(voters: set<NodeId>, a: NodeId, b: NodeId, c: NodeId)
    returns (states: seq<Cluster>, acts: seq<Action>, i: nat, j: nat)
    requires ThreeVoters(voters, a, b, c)
    ensures ValidRun(states, acts) && Init(states[0], voters) && NoAppends(acts)
    ensures WinsAt(states, acts, i, a, 1) && WinsAt(states, acts, j, b, 1)
  {
    var start := BlankStart(voters, a, b, c);
    var s1, a1 := UnsavedWinner(start, a, b, c);
    var s2, a2 := Restart(s1[4], c);
    var s3, a3 := Elect(s2[1], b, c);
    Join(s1, a1, s2, a2);
    Join(s1 + s2[1..], a1 + a2, s3, a3);
    states, acts := s1 + s2[1..] + s3[1..], a1 + a2 + a3;
    assert states[7] == s3[2] && states[8] == s3[3];
    i, j := 3, 7;
  }
}
