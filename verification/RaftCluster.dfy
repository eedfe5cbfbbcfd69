/**
 * A cluster of Raft nodes with one fixed voter set. Sent messages are never removed, so a run may lose, repeat
 * and reorder them freely. Vote requests and vote responses are delivered only if they were sent; every other
 * event, heartbeats and append traffic included, may arrive at any node at any time with any contents.
 */
module RaftCluster {
  import opened RaftTypes
  import opened RaftCore
  import CoreRules
  import opened NodeRuns

  datatype Message =
    | VoteRequestMessage(peers: set<NodeId>, request: VoteRequest)
    | VoteResponseMessage(from: NodeId, to: NodeId, vote: VoteResponse)
    | HeartbeatMessage(heartbeat: HeartbeatRequest)

  /** A vote that left the voter, with the voter's log position at that moment. */
  datatype Ballot = Ballot(voter: NodeId, term: nat, candidate: NodeId, lastLogTerm: nat, lastLogIndex: nat)

  /** `saved` is the hard state on each node's disk; `ballots` is a history of the votes sent. */
  datatype Cluster = Cluster(
    nodes: map<NodeId, Node>,
    saved: map<NodeId, HardState>,
    sent: set<Message>,
    ballots: set<Ballot>)

  /**
   * Deliver: handle the event, save the hard state if the effect carries one, then send.
   * FailedSave: handle the event, but saving the hard state fails; the node goes on and sends nothing.
   * Crash: the process stops and `Runtime::new` starts it again from the saved hard state. With an event in
   * flight the process stops after that event's hard state was saved but before its message was sent.
   */
  datatype Action =
    | Deliver(id: NodeId, ev: Event)
    | FailedSave(id: NodeId, ev: Event)
    | Crash(id: NodeId, inFlight: Option<Event>, nextOffset: nat)

  function Messages(n: Node, outcome: Outcome): set<Message> {
    match outcome
    case Done(Some(SendRequestVotes(_, peers, request))) => {VoteRequestMessage(peers, request)}
    case Done(Some(SendRequestVoteResponse(_, peer, vote))) => {VoteResponseMessage(n.id, peer, vote)}
    case Done(Some(SendHeartbeat(_, heartbeat))) => {HeartbeatMessage(heartbeat)}
    case _ => {}
  }

  function Ballots(n: Node, outcome: Outcome): set<Ballot> {
    match outcome
    case Done(Some(SendRequestVotes(_, _, request))) =>
      {Ballot(n.id, request.term, request.candidateId, n.lastLogTerm, n.lastLogIndex)}
    case Done(Some(SendRequestVoteResponse(_, peer, vote))) =>
      if vote.voteGranted then {Ballot(n.id, vote.term, peer, n.lastLogTerm, n.lastLogIndex)} else {}
    case _ => {}
  }

  function SavedAfter(saved: HardState, outcome: Outcome): HardState {
    match outcome
    case Done(Some(SendRequestVotes(hard, _, _))) => hard
    case Done(Some(SendRequestVoteResponse(Some(hard), _, _))) => hard
    case _ => saved
  }

  predicate AsksToSave(outcome: Outcome) {
    outcome.Done? && outcome.effect.Some? &&
    (outcome.effect.value.SendRequestVotes? ||
     (outcome.effect.value.SendRequestVoteResponse? && outcome.effect.value.changedState.Some?))
  }

  /** What remains of a transition whose hard state could not be saved: the state in memory. */
  function Unsaved(t: Transition): Transition {
    Transition(t.node, Failed(PersistStateFailed))
  }

  ghost predicate Deliverable(c: Cluster, id: NodeId, ev: Event) {
    match ev
    case RequestVote(request) =>
      exists m :: m in c.sent && m.VoteRequestMessage? && m.request == request && id in m.peers
    case VoteReceived(from, vote) => VoteResponseMessage(from, id, vote) in c.sent
    case _ => true
  }

  ghost predicate Enabled(c: Cluster, a: Action) {
    && a.id in c.nodes
    && a.id in c.saved
    && match a
       case Deliver(id, ev) => Deliverable(c, id, ev)
       case FailedSave(id, ev) => Deliverable(c, id, ev) && AsksToSave(Handle(c.nodes[id], ev).outcome)
       case Crash(id, Some(ev), _) => Deliverable(c, id, ev)
       case Crash(_, None, _) => true
  }

  /** Node `id` took the transition t, saved what t asks to save and sent what t asks to send. */
  function Applied(c: Cluster, id: NodeId, t: Transition): Cluster
    requires id in c.saved
  {
    Cluster(c.nodes[id := t.node], c.saved[id := SavedAfter(c.saved[id], t.outcome)],
            c.sent + Messages(t.node, t.outcome), c.ballots + Ballots(t.node, t.outcome))
  }

  function Next(c: Cluster, a: Action): Cluster
    requires a.id in c.nodes && a.id in c.saved
  {
    var n := c.nodes[a.id];
    match a
    case Deliver(id, ev) =>
      Applied(c, id, Handle(n, ev))
    case FailedSave(id, ev) =>
      Applied(c, id, Unsaved(Handle(n, ev)))
    case Crash(id, inFlight, nextOffset) =>
      var hard := if inFlight == None then c.saved[id] else SavedAfter(c.saved[id], Handle(n, inFlight.value).outcome);
      c.(nodes := c.nodes[id := InitialNode(id, n.voters.Keys, nextOffset, hard)], saved := c.saved[id := hard])
  }

  /** A follower with the hard state on its disk; log positions and learners may be anything. */
  predicate Started(n: Node, id: NodeId, voters: set<NodeId>, saved: HardState) {
    n.id == id && n.voters.Keys == voters && n.role == Follower && n.Hard() == saved
  }

  /** Every voter is a node that has just started. */
  ghost predicate Init(c: Cluster, voters: set<NodeId>) {
    && c.nodes.Keys == c.saved.Keys == voters
    && c.sent == {} && c.ballots == {}
    && forall id {:trigger Started(c.nodes[id], id, voters, c.saved[id])} ::
         id in voters ==> Started(c.nodes[id], id, voters, c.saved[id])
  }

  ghost predicate Steps(c: Cluster, a: Action, c': Cluster) {
    Enabled(c, a) && c' == Next(c, a)
  }

  /** A run: states[k + 1] follows from states[k] by acts[k]. */
  ghost predicate ValidRun(states: seq<Cluster>, acts: seq<Action>) {
    && |states| == |acts| + 1
    && forall k {:trigger Steps(states[k], acts[k], states[k + 1])} ::
         0 <= k < |acts| ==> Steps(states[k], acts[k], states[k + 1])
  }

  lemma StepOf(states: seq<Cluster>, acts: seq<Action>, k: nat)
    requires ValidRun(states, acts) && k < |acts|
    ensures Steps(states[k], acts[k], states[k + 1])
  {
  }

  // ---- Votes, requests and elections ----

  ghost predicate HasBallot(c: Cluster, voter: NodeId, term: nat, candidate: NodeId) {
    exists b :: b in c.ballots && b.voter == voter && b.term == term && b.candidate == candidate
  }

  predicate IsRequest(m: Message, candidate: NodeId, term: nat) {
    m.VoteRequestMessage? && m.request.candidateId == candidate && m.request.term == term
  }

  ghost predicate HasRequest(c: Cluster, candidate: NodeId, term: nat) {
    exists m {:trigger IsRequest(m, candidate, term)} :: m in c.sent && IsRequest(m, candidate, term)
  }

  ghost function Supporters(c: Cluster, voters: set<NodeId>, candidate: NodeId, term: nat): set<NodeId> {
    set v | v in voters && HasBallot(c, v, term, candidate)
  }

  ghost predicate Elected(c: Cluster, voters: set<NodeId>, candidate: NodeId, term: nat) {
    |Supporters(c, voters, candidate, term)| > |voters| / 2
  }

  /** `id` turns from candidate into leader. */
  predicate Wins(c: Cluster, c': Cluster, id: NodeId) {
    && id in c.nodes && id in c'.nodes
    && c.nodes[id].role == Candidate && c'.nodes[id].role == Leader
  }

  /** The mismatch-reject branch raises the term of a node that still holds a vote of an older term. */
  predicate RaisesTermHoldingVote(n: Node, ev: Event) {
    && ev.AppendEntries?
    && ev.append.term > n.currentTerm
    && !CoreRules.Fits(n, ev.append, ev.localPrevLogTerm)
    && n.votedFor != None
  }

  /** The event makes the node vote: for itself, or for a candidate whose request it grants. */
  predicate RecordsVote(n: Node, ev: Event) {
    match ev
    case ElectionTimeout => true
    case RequestVote(request) =>
      && request.term >= n.currentTerm
      && CoreRules.LogAtLeast(request.lastLogTerm, request.lastLogIndex, n.lastLogTerm, n.lastLogIndex)
      && (request.term > n.currentTerm || n.votedFor == None || n.votedFor == Some(request.candidateId))
    case _ => false
  }

  /** The mismatch-reject branch raises the term of a leader, which stays leader. */
  predicate RaisesTermOfLeader(n: Node, ev: Event) {
    && ev.AppendEntries?
    && ev.append.term > n.currentTerm
    && !CoreRules.Fits(n, ev.append, ev.localPrevLogTerm)
    && n.role == Leader
  }
}
