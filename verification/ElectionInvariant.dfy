/** The invariant behind the safety of elections, and its preservation by one transition of one node. */
module ElectionInvariant {
  import opened RaftTypes
  import opened RaftCore
  import opened CoreRules
  import opened NodeRuns
  import opened RaftCluster

  /**
   * The hard state each node answers for. Without crashes it is the state in memory; with crashes it is the
   * state on disk, which is all that survives.
   */
  type Anchors = map<NodeId, HardState>

  function Memory(c: Cluster): Anchors {
    map id | id in c.nodes :: c.nodes[id].Hard()
  }

  /** The anchor already rules out any other vote in this term. */
  predicate Commits(anchor: HardState, term: nat, candidate: NodeId) {
    term < anchor.currentTerm || (term == anchor.currentTerm && anchor.votedFor == Some(candidate))
  }

  predicate Extends(before: HardState, after: HardState) {
    && before.currentTerm <= after.currentTerm
    && (before.currentTerm == after.currentTerm && before.votedFor != None ==> before.votedFor == after.votedFor)
  }

  /** The state in memory extends the anchor, and a vote held in memory is in the anchor. */
  predicate Covers(anchor: HardState, n: Node) {
    Extends(anchor, n.Hard()) && (n.votedFor != None ==> anchor == n.Hard())
  }

  predicate NodeOk(n: Node, id: NodeId, voters: set<NodeId>, anchor: HardState) {
    n.id == id && n.voters.Keys == voters && Covers(anchor, n)
  }

  ghost predicate NodesOk(c: Cluster, voters: set<NodeId>, anchors: Anchors) {
    && c.nodes.Keys == anchors.Keys == voters
    && forall id {:trigger NodeOk(c.nodes[id], id, voters, anchors[id])} ::
         id in voters ==> NodeOk(c.nodes[id], id, voters, anchors[id])
  }

  predicate RequestCommitted(m: Message, anchors: Anchors) {
    m.VoteRequestMessage? ==>
      && m.request.candidateId in anchors
      && Commits(anchors[m.request.candidateId], m.request.term, m.request.candidateId)
  }

  ghost predicate RequestsCommitted(c: Cluster, anchors: Anchors) {
    forall m {:trigger RequestCommitted(m, anchors)} :: m in c.sent ==> RequestCommitted(m, anchors)
  }

  predicate SameRound(m: Message, m': Message) {
    && m.VoteRequestMessage? && m'.VoteRequestMessage?
    && m.request.candidateId == m'.request.candidateId && m.request.term == m'.request.term
  }

  /** A node asks for votes at most once in a term. */
  ghost predicate RequestsUnique(c: Cluster) {
    forall m, m' {:trigger SameRound(m, m')} :: m in c.sent && m' in c.sent && SameRound(m, m') ==> m == m'
  }

  predicate BallotCommitted(b: Ballot, anchors: Anchors) {
    b.voter in anchors && Commits(anchors[b.voter], b.term, b.candidate)
  }

  ghost predicate BallotsCommitted(c: Cluster, anchors: Anchors) {
    forall b {:trigger BallotCommitted(b, anchors)} :: b in c.ballots ==> BallotCommitted(b, anchors)
  }

  predicate SamePoll(b: Ballot, b': Ballot) {
    b.voter == b'.voter && b.term == b'.term
  }

  /** A node votes for at most one candidate in a term. */
  ghost predicate BallotsUnique(c: Cluster) {
    forall b, b' {:trigger SamePoll(b, b')} ::
      b in c.ballots && b' in c.ballots && SamePoll(b, b') ==> b.candidate == b'.candidate
  }

  /** The candidate asked for this vote, with a log at least as up to date as the voter's at that moment. */
  ghost predicate BallotRequested(c: Cluster, b: Ballot) {
    exists m {:trigger IsRequest(m, b.candidate, b.term)} ::
      m in c.sent && IsRequest(m, b.candidate, b.term) && Outdoes(m.request, b)
  }

  /** The request's log is at least as up to date as the voter's log was when it cast the ballot. */
  predicate Outdoes(request: VoteRequest, b: Ballot) {
    LogAtLeast(request.lastLogTerm, request.lastLogIndex, b.lastLogTerm, b.lastLogIndex)
  }

  ghost predicate BallotsRequested(c: Cluster) {
    forall b {:trigger BallotRequested(c, b)} :: b in c.ballots ==> BallotRequested(c, b)
  }

  ghost predicate ResponseOk(c: Cluster, m: Message) {
    m.VoteResponseMessage? && m.vote.voteGranted ==> HasBallot(c, m.from, m.vote.term, m.to)
  }

  ghost predicate ResponsesOk(c: Cluster) {
    forall m {:trigger ResponseOk(c, m)} :: m in c.sent ==> ResponseOk(c, m)
  }

  /** A candidate's collected votes are real votes of its term, unless it never asked for votes in this term. */
  ghost predicate CandidateOk(c: Cluster, voters: set<NodeId>, n: Node) {
    n.role == Candidate && HasRequest(c, n.id, n.currentTerm) ==>
      n.grantedVotes <= Supporters(c, voters, n.id, n.currentTerm)
  }

  ghost predicate CandidatesOk(c: Cluster, voters: set<NodeId>) {
    forall id {:trigger CandidateOk(c, voters, c.nodes[id])} :: id in c.nodes ==> CandidateOk(c, voters, c.nodes[id])
  }

  ghost predicate Inv(c: Cluster, voters: set<NodeId>, anchors: Anchors) {
    && NodesOk(c, voters, anchors)
    && RequestsCommitted(c, anchors)
    && RequestsUnique(c)
    && BallotsCommitted(c, anchors)
    && BallotsUnique(c)
    && BallotsRequested(c)
    && ResponsesOk(c)
    && CandidatesOk(c, voters)
  }

  // ---- What a transition tells the cluster ----

  predicate BallotFact(n: Node, ev: Event, t: Transition, b: Ballot) {
    && b == Ballot(n.id, t.node.currentTerm, b.candidate, n.lastLogTerm, n.lastLogIndex)
    && t.node.votedFor == Some(b.candidate)
    && match ev
       case ElectionTimeout =>
         && b.candidate == n.id
         && VoteRequestMessage(Peers(n), VoteRequest(b.term, n.id, n.lastLogIndex, n.lastLogTerm))
              in Messages(t.node, t.outcome)
       case RequestVote(request) =>
         && request.candidateId == b.candidate && request.term == b.term
         && Outdoes(request, b)
       case _ => false
  }

  ghost predicate BallotFacts(n: Node, ev: Event, t: Transition) {
    forall b {:trigger BallotFact(n, ev, t, b)} :: b in Ballots(t.node, t.outcome) ==> BallotFact(n, ev, t, b)
  }

  predicate MessageFact(n: Node, ev: Event, t: Transition, m: Message) {
    match m
    case VoteRequestMessage(peers, request) =>
      && ev == ElectionTimeout
      && m == VoteRequestMessage(Peers(n), VoteRequest(n.currentTerm + 1, n.id, n.lastLogIndex, n.lastLogTerm))
      && Ballot(n.id, n.currentTerm + 1, n.id, n.lastLogTerm, n.lastLogIndex) in Ballots(t.node, t.outcome)
    case VoteResponseMessage(from, to, vote) =>
      vote.voteGranted ==>
        Ballot(from, vote.term, to, n.lastLogTerm, n.lastLogIndex) in Ballots(t.node, t.outcome)
    case HeartbeatMessage(heartbeat) =>
      && t.node.role == Leader
      && heartbeat.leaderId == n.id
      && heartbeat.term == t.node.currentTerm
  }

  ghost predicate MessageFacts(n: Node, ev: Event, t: Transition) {
    forall m {:trigger MessageFact(n, ev, t, m)} :: m in Messages(t.node, t.outcome) ==> MessageFact(n, ev, t, m)
  }

  /** A new, granted vote of the current term reaches a candidate. */
  predicate CountsVote(n: Node, ev: Event, t: Transition) {
    && ev.VoteReceived?
    && n.role == Candidate
    && ev.from in n.voters
    && ev.vote == VoteResponse(n.currentTerm, true)
    && t.node.currentTerm == n.currentTerm
    && t.node.grantedVotes == n.grantedVotes + {ev.from}
  }

  /** The ways to be a candidate after a transition. */
  predicate CandidateFact(n: Node, ev: Event, t: Transition) {
    t.node.role == Candidate ==>
      || (ev == ElectionTimeout && t.node.grantedVotes == {n.id}
          && Ballot(n.id, t.node.currentTerm, n.id, n.lastLogTerm, n.lastLogIndex) in Ballots(t.node, t.outcome))
      || (t.node.currentTerm > n.currentTerm && Messages(t.node, t.outcome) == {})
      || (ev != ElectionTimeout && n.role == Candidate
          && t.node.currentTerm == n.currentTerm && t.node.grantedVotes == n.grantedVotes)
      || CountsVote(n, ev, t)
  }

  /** The ways to be a leader after a transition. */
  predicate LeaderFact(n: Node, ev: Event, t: Transition) {
    t.node.role == Leader ==>
      || (n.role == Leader && (t.node.currentTerm == n.currentTerm || RaisesTermOfLeader(n, ev)))
      || (CountsVote(n, ev, t) && |t.node.grantedVotes| > |n.voters.Keys| / 2)
  }

  ghost predicate StepFacts(n: Node, ev: Event, t: Transition) {
    && MayFollow(n, t.node)
    && BallotFacts(n, ev, t)
    && MessageFacts(n, ev, t)
    && CandidateFact(n, ev, t)
    && LeaderFact(n, ev, t)
  }

  /** Only a timeout, a vote request, a heartbeat timeout and a vote response make a node send. */
  lemma OthersSendNothing(n: Node, ev: Event, t: Transition)
    requires t == Handle(n, ev)
    ensures !ev.ElectionTimeout? && !ev.RequestVote? ==> Ballots(t.node, t.outcome) == {}
    ensures !ev.ElectionTimeout? && !ev.RequestVote? && !ev.HeartbeatTimeout? && !ev.VoteReceived? ==>
              Messages(t.node, t.outcome) == {}
  {
  }

  lemma TimeoutFacts(n: Node, t: Transition)
    requires t == OnElectionTimeout(n)
    ensures BallotFacts(n, ElectionTimeout, t) && MessageFacts(n, ElectionTimeout, t)
  {
  }

  lemma VoteFacts(n: Node, request: VoteRequest, t: Transition)
    requires t == OnRequestVote(n, request)
    ensures BallotFacts(n, RequestVote(request), t) && MessageFacts(n, RequestVote(request), t)
  {
  }

  lemma HeartbeatFacts(n: Node, ev: Event, t: Transition)
    requires ev.HeartbeatTimeout? || ev.VoteReceived?
    requires t == Handle(n, ev)
    ensures MessageFacts(n, ev, t)
  {
  }

  lemma BallotAndMessageFacts(n: Node, ev: Event, t: Transition)
    requires t == Handle(n, ev)
    ensures BallotFacts(n, ev, t)
    ensures MessageFacts(n, ev, t)
  {
    OthersSendNothing(n, ev, t);
    match ev {
      case ElectionTimeout => TimeoutFacts(n, t);
      case RequestVote(request) => VoteFacts(n, request, t);
      case HeartbeatTimeout => HeartbeatFacts(n, ev, t);
      case VoteReceived(_, _) => HeartbeatFacts(n, ev, t);
      case _ =>
    }
  }

  lemma CandidateFacts(n: Node, ev: Event)
    ensures CandidateFact(n, ev, Handle(n, ev))
  {
  }

  lemma LeaderFacts(n: Node, ev: Event)
    ensures LeaderFact(n, ev, Handle(n, ev))
  {
  }

  lemma FactsOfHandle(n: Node, ev: Event)
    ensures StepFacts(n, ev, Handle(n, ev))
  {
    HandleAdvances(n, ev);
    BallotAndMessageFacts(n, ev, Handle(n, ev));
    CandidateFacts(n, ev);
    LeaderFacts(n, ev);
  }

  lemma OnlyVotesAreSaved(n: Node, ev: Event)
    requires AsksToSave(Handle(n, ev).outcome)
    ensures ev.ElectionTimeout? || ev.RequestVote?
    ensures Handle(n, ev).node.role == Leader ==> n.role == Leader && Handle(n, ev).node.currentTerm == n.currentTerm
    ensures Handle(n, ev).node.role == Candidate ==>
              || Handle(n, ev).node.currentTerm > n.currentTerm
              || (n.role == Candidate && Handle(n, ev).node.grantedVotes == n.grantedVotes)
  {
  }

  lemma FactsOfUnsaved(n: Node, ev: Event, t: Transition)
    requires AsksToSave(Handle(n, ev).outcome) && t == Unsaved(Handle(n, ev))
    ensures StepFacts(n, ev, t)
  {
    HandleAdvances(n, ev);
    OnlyVotesAreSaved(n, ev);
  }

  // ---- One step of the cluster ----

  predicate Acts(c: Cluster, id: NodeId) {
    id in c.nodes && id in c.saved && c.nodes[id].id == id
  }

  /** What a new anchor must satisfy after transition t. */
  ghost predicate AnchorFollows(t: Transition, anchor: HardState, anchor': HardState) {
    && Covers(anchor', t.node)
    && Extends(anchor, anchor')
    && forall b :: b in Ballots(t.node, t.outcome) ==> anchor' == HardState(b.term, Some(b.candidate))
  }

  lemma NodesKept(c: Cluster, voters: set<NodeId>, anchors: Anchors, id: NodeId, t: Transition, h: HardState)
    requires NodesOk(c, voters, anchors) && id in voters && Acts(c, id)
    requires MayFollow(c.nodes[id], t.node) && Covers(h, t.node)
    ensures NodesOk(Applied(c, id, t), voters, anchors[id := h])
  {
    var c', anchors' := Applied(c, id, t), anchors[id := h];
    assert NodeOk(c.nodes[id], id, voters, anchors[id]);
    forall x | x in voters
      ensures NodeOk(c'.nodes[x], x, voters, anchors'[x])
    {
      if x != id {
        assert NodeOk(c.nodes[x], x, voters, anchors[x]);
      }
    }
  }

  /** A request sent by t opens a new round, and t sends at most one request. */
  lemma NewRequestIsFirst(c: Cluster, anchors: Anchors, id: NodeId, ev: Event, t: Transition, m: Message, m': Message)
    requires Acts(c, id) && id in anchors && Covers(anchors[id], c.nodes[id])
    requires RequestsCommitted(c, anchors) && MessageFacts(c.nodes[id], ev, t)
    requires m in Applied(c, id, t).sent && m' in Messages(t.node, t.outcome)
    ensures m in c.sent ==> !SameRound(m, m') && !SameRound(m', m)
    ensures m !in c.sent && SameRound(m, m') ==> m == m'
  {
    assert MessageFact(c.nodes[id], ev, t, m');
    if m in c.sent {
      assert RequestCommitted(m, anchors);
    } else {
      assert MessageFact(c.nodes[id], ev, t, m);
    }
  }

  lemma RequestsKept(c: Cluster, anchors: Anchors, id: NodeId, ev: Event, t: Transition, h: HardState)
    requires Acts(c, id) && id in anchors && Covers(anchors[id], c.nodes[id])
    requires RequestsCommitted(c, anchors) && RequestsUnique(c)
    requires MessageFacts(c.nodes[id], ev, t) && AnchorFollows(t, anchors[id], h)
    ensures RequestsCommitted(Applied(c, id, t), anchors[id := h])
    ensures RequestsUnique(Applied(c, id, t))
  {
    var c', n, anchors' := Applied(c, id, t), c.nodes[id], anchors[id := h];
    forall m | m in c'.sent
      ensures RequestCommitted(m, anchors')
    {
      if m in c.sent {
        assert RequestCommitted(m, anchors);
      } else {
        assert MessageFact(n, ev, t, m);
      }
    }
    forall m, m' | m in c'.sent && m' in c'.sent && SameRound(m, m')
      ensures m == m'
    {
      if m' !in c.sent {
        NewRequestIsFirst(c, anchors, id, ev, t, m, m');
      } else if m !in c.sent {
        NewRequestIsFirst(c, anchors, id, ev, t, m', m);
      }
    }
  }

  lemma BallotsKept(c: Cluster, anchors: Anchors, id: NodeId, ev: Event, t: Transition, h: HardState)
    requires Acts(c, id) && id in anchors
    requires BallotsCommitted(c, anchors) && BallotsUnique(c)
    requires BallotFacts(c.nodes[id], ev, t) && AnchorFollows(t, anchors[id], h)
    ensures BallotsCommitted(Applied(c, id, t), anchors[id := h])
    ensures BallotsUnique(Applied(c, id, t))
  {
    var c', n, anchors' := Applied(c, id, t), c.nodes[id], anchors[id := h];
    forall b | b in c'.ballots
      ensures BallotCommitted(b, anchors')
    {
      if b in c.ballots {
        assert BallotCommitted(b, anchors);
      } else {
        assert BallotFact(n, ev, t, b);
      }
    }
    forall b, b' | b in c'.ballots && b' in c'.ballots && SamePoll(b, b')
      ensures b.candidate == b'.candidate
    {
      if b in c.ballots && b' in c.ballots {
      } else if b in c.ballots {
        assert BallotFact(n, ev, t, b') && BallotCommitted(b, anchors);
      } else if b' in c.ballots {
        assert BallotFact(n, ev, t, b) && BallotCommitted(b', anchors);
      } else {
        assert BallotFact(n, ev, t, b) && BallotFact(n, ev, t, b');
      }
    }
  }

  lemma BallotRequestsKept(c: Cluster, id: NodeId, ev: Event, t: Transition)
    requires Acts(c, id) && Deliverable(c, id, ev)
    requires BallotsRequested(c) && BallotFacts(c.nodes[id], ev, t)
    ensures BallotsRequested(Applied(c, id, t))
  {
    var c', n := Applied(c, id, t), c.nodes[id];
    forall b | b in c'.ballots
      ensures BallotRequested(c', b)
    {
      if b in c.ballots {
        assert BallotRequested(c, b);
        var m :| m in c.sent && IsRequest(m, b.candidate, b.term) && Outdoes(m.request, b);
        assert m in c'.sent;
      } else {
        assert BallotFact(n, ev, t, b);
        if ev.RequestVote? {
          var m :| m in c.sent && m.VoteRequestMessage? && m.request == ev.voteRequest && id in m.peers;
          assert m in c'.sent && IsRequest(m, b.candidate, b.term);
        } else {
          var m := VoteRequestMessage(Peers(n), VoteRequest(b.term, n.id, n.lastLogIndex, n.lastLogTerm));
          assert m in c'.sent && IsRequest(m, b.candidate, b.term);
        }
      }
    }
  }

  /** c' keeps every message and ballot of c. */
  predicate Grows(c: Cluster, c': Cluster) {
    c.sent <= c'.sent && c.ballots <= c'.ballots
  }

  lemma BallotsGrow(c: Cluster, c': Cluster, voter: NodeId, term: nat, candidate: NodeId)
    requires Grows(c, c')
    requires HasBallot(c, voter, term, candidate)
    ensures HasBallot(c', voter, term, candidate)
  {
    var b :| b in c.ballots && b.voter == voter && b.term == term && b.candidate == candidate;
    assert b in c'.ballots;
  }

  lemma SupportersGrow(c: Cluster, c': Cluster, voters: set<NodeId>, candidate: NodeId, term: nat)
    requires Grows(c, c')
    ensures Supporters(c, voters, candidate, term) <= Supporters(c', voters, candidate, term)
    ensures Elected(c, voters, candidate, term) ==> Elected(c', voters, candidate, term)
  {
    forall v | v in Supporters(c, voters, candidate, term)
      ensures v in Supporters(c', voters, candidate, term)
    {
      BallotsGrow(c, c', v, term, candidate);
    }
    SubsetSize(Supporters(c, voters, candidate, term), Supporters(c', voters, candidate, term));
  }

  lemma ResponsesKept(c: Cluster, id: NodeId, ev: Event, t: Transition)
    requires Acts(c, id) && ResponsesOk(c) && MessageFacts(c.nodes[id], ev, t)
    ensures ResponsesOk(Applied(c, id, t))
  {
    var c', n := Applied(c, id, t), c.nodes[id];
    forall m | m in c'.sent
      ensures ResponseOk(c', m)
    {
      if m.VoteResponseMessage? && m.vote.voteGranted {
        if m in c.sent {
          assert ResponseOk(c, m);
          BallotsGrow(c, c', m.from, m.vote.term, m.to);
        } else {
          assert MessageFact(n, ev, t, m);
          assert Ballot(m.from, m.vote.term, m.to, n.lastLogTerm, n.lastLogIndex) in c'.ballots;
        }
      }
    }
  }

  lemma NoRequestAhead(c: Cluster, anchors: Anchors, id: NodeId, term: nat)
    requires id in anchors && RequestsCommitted(c, anchors) && term > anchors[id].currentTerm
    ensures !HasRequest(c, id, term)
  {
    forall m | m in c.sent
      ensures !IsRequest(m, id, term)
    {
      assert RequestCommitted(m, anchors);
    }
  }

  /** A counted vote belongs to a request of this term, so all votes counted so far are real. */
  lemma CountedVotesAreReal(c: Cluster, voters: set<NodeId>, id: NodeId, ev: Event, t: Transition)
    requires id in c.nodes && c.nodes[id].id == id && c.nodes[id].voters.Keys == voters && Deliverable(c, id, ev)
    requires BallotsRequested(c) && ResponsesOk(c) && CandidateOk(c, voters, c.nodes[id])
    requires CountsVote(c.nodes[id], ev, t)
    ensures t.node.grantedVotes <= Supporters(c, voters, id, t.node.currentTerm)
  {
    var term := t.node.currentTerm;
    assert ResponseOk(c, VoteResponseMessage(ev.from, id, ev.vote));
    var b :| b in c.ballots && b.voter == ev.from && b.term == term && b.candidate == id;
    assert BallotRequested(c, b);
    assert HasRequest(c, id, term);
  }

  lemma RequestsOnlyOnTimeout(c: Cluster, id: NodeId, ev: Event, t: Transition, candidate: NodeId, term: nat)
    requires Acts(c, id) && MessageFacts(c.nodes[id], ev, t)
    requires HasRequest(Applied(c, id, t), candidate, term)
    ensures HasRequest(c, candidate, term) || (ev == ElectionTimeout && candidate == id)
  {
    var m :| m in Applied(c, id, t).sent && IsRequest(m, candidate, term);
    if m !in c.sent {
      assert MessageFact(c.nodes[id], ev, t, m);
    }
  }

  lemma OtherCandidateKept(c: Cluster, voters: set<NodeId>, id: NodeId, ev: Event, t: Transition, n: Node)
    requires Acts(c, id) && n.id != id
    requires MessageFacts(c.nodes[id], ev, t)
    requires CandidateOk(c, voters, n)
    ensures CandidateOk(Applied(c, id, t), voters, n)
  {
    SupportersGrow(c, Applied(c, id, t), voters, n.id, n.currentTerm);
    if HasRequest(Applied(c, id, t), n.id, n.currentTerm) {
      RequestsOnlyOnTimeout(c, id, ev, t, n.id, n.currentTerm);
    }
  }

  /** A candidate after the step either asked for votes just now, or counted only real votes before. */
  lemma CandidateKept(c: Cluster, voters: set<NodeId>, anchors: Anchors, id: NodeId, ev: Event, t: Transition)
    requires Acts(c, id) && Deliverable(c, id, ev) && id in anchors
    requires c.nodes[id].voters.Keys == voters && id in voters && t.node.id == id
    requires anchors[id].currentTerm <= c.nodes[id].currentTerm <= t.node.currentTerm
    requires RequestsCommitted(c, anchors) && BallotsRequested(c) && ResponsesOk(c)
    requires CandidateOk(c, voters, c.nodes[id])
    requires MessageFacts(c.nodes[id], ev, t) && CandidateFact(c.nodes[id], ev, t)
    ensures CandidateOk(Applied(c, id, t), voters, t.node)
  {
    var c', n := Applied(c, id, t), c.nodes[id];
    var term := t.node.currentTerm;
    SupportersGrow(c, c', voters, id, term);
    if t.node.role == Candidate && HasRequest(c', id, term) {
      if Ballot(id, term, id, n.lastLogTerm, n.lastLogIndex) in c'.ballots && t.node.grantedVotes == {id} {
        assert HasBallot(c', id, term, id);
      } else if term > n.currentTerm {
        NoRequestAhead(c, anchors, id, term);
        assert HasRequest(c, id, term);
      } else {
        RequestsOnlyOnTimeout(c, id, ev, t, id, term);
        if CountsVote(n, ev, t) {
          CountedVotesAreReal(c, voters, id, ev, t);
        }
      }
    }
  }

  lemma CandidatesKept(c: Cluster, voters: set<NodeId>, anchors: Anchors, id: NodeId, ev: Event, t: Transition)
    requires NodesOk(c, voters, anchors) && id in voters && Acts(c, id) && Deliverable(c, id, ev)
    requires RequestsCommitted(c, anchors) && BallotsRequested(c) && ResponsesOk(c) && CandidatesOk(c, voters)
    requires MayFollow(c.nodes[id], t.node) && MessageFacts(c.nodes[id], ev, t) && CandidateFact(c.nodes[id], ev, t)
    ensures CandidatesOk(Applied(c, id, t), voters)
  {
    var c' := Applied(c, id, t);
    forall x | x in c'.nodes
      ensures CandidateOk(c', voters, c'.nodes[x])
    {
      assert NodeOk(c.nodes[x], x, voters, anchors[x]);
      assert CandidateOk(c, voters, c.nodes[x]);
      if x == id {
        CandidateKept(c, voters, anchors, id, ev, t);
      } else {
        OtherCandidateKept(c, voters, id, ev, t, c.nodes[x]);
      }
    }
  }

  lemma StepKeepsInv(c: Cluster, voters: set<NodeId>, anchors: Anchors, id: NodeId, ev: Event, t: Transition,
                     h: HardState)
    requires Inv(c, voters, anchors) && id in voters && Acts(c, id) && Deliverable(c, id, ev)
    requires StepFacts(c.nodes[id], ev, t)
    requires AnchorFollows(t, anchors[id], h)
    ensures Inv(Applied(c, id, t), voters, anchors[id := h])
  {
    assert NodeOk(c.nodes[id], id, voters, anchors[id]);
    NodesKept(c, voters, anchors, id, t, h);
    RequestsKept(c, anchors, id, ev, t, h);
    BallotsKept(c, anchors, id, ev, t, h);
    BallotRequestsKept(c, id, ev, t);
    ResponsesKept(c, id, ev, t);
    CandidatesKept(c, voters, anchors, id, ev, t);
  }
}
