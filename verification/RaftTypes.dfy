/** The data of `src/raft/types.rs`: events, effects, messages and the state of one Raft node. */
module RaftTypes {
  import opened Bytes

  datatype Option<+T> = None | Some(value: T)

  // A Rust String is its UTF-8 bytes, so a node name is a sequence of bytes.
  datatype NodeId = NodeId(name: seq<Byte>)
  type OperationId = nat

  datatype Role = Candidate | Follower | Leader

  datatype Progress = Progress(nextIndex: nat, matchIndex: nat)

  datatype HardState = HardState(currentTerm: nat, votedFor: Option<NodeId>)

  datatype VoteRequest = VoteRequest(term: nat, candidateId: NodeId, lastLogIndex: nat, lastLogTerm: nat)

  datatype VoteResponse = VoteResponse(term: nat, voteGranted: bool)

  datatype HeartbeatRequest =
    HeartbeatRequest(term: nat, leaderId: NodeId, logIndex: nat, logTerm: nat, leaderCommitIndex: nat)

  datatype AppendRequest =
    AppendRequest(term: nat, leaderId: NodeId, prevLogIndex: nat, prevLogTerm: nat, commitIndex: nat)

  // Answers both append requests and heartbeats.
  datatype AppendResponse =
    AppendResponse(term: nat, success: bool, lastLogIndex: nat, lastLogTerm: nat, leaderId: Option<NodeId>)

  datatype ReplicationTarget =
    ReplicationTarget(peer: NodeId, lastLogIndex: nat, lastLogTerm: nat, leaderId: NodeId, leaderCommitIndex: nat)

  datatype Event =
    | ElectionTimeout
    | HeartbeatTimeout
    | Heartbeat(heartbeat: HeartbeatRequest)
    | RequestVote(voteRequest: VoteRequest)
    | AppendEntries(operationId: OperationId, append: AppendRequest, localPrevLogTerm: Option<nat>)
    | AppendEntriesResponse(operationId: OperationId, from: NodeId, response: AppendResponse)
    | EntriesPersisted(operationId: OperationId, lastLogIndex: nat, lastLogTerm: nat, leaderCommitIndex: nat)
    | EntriesApplied(operationId: OperationId, through: nat)
    | VoteReceived(from: NodeId, vote: VoteResponse)
    | HeartbeatResponse(from: NodeId, response: AppendResponse)
    | LocalEntriesAppended(operationId: OperationId, index: nat, term: nat)
    | Write(operationId: OperationId)

  // The order of peers and targets comes from hash-map iteration, so both are sets here.
  datatype Effect =
    | SendRequestVotes(hardState: HardState, peers: set<NodeId>, request: VoteRequest)
    | SendAppendEntries(operationId: OperationId, targets: set<ReplicationTarget>)
    | SendRequestVoteResponse(changedState: Option<HardState>, peer: NodeId, vote: VoteResponse)
    | SendHeartbeat(peers: set<NodeId>, heartbeat: HeartbeatRequest)
    | SendHeartbeatResponse(peer: NodeId, response: AppendResponse, resetElectionTimer: bool, applyThrough: Option<nat>)
    | PersistEntries(operationId: OperationId, peer: NodeId, response: AppendResponse,
                     truncateAfter: Option<nat>, leaderCommitIndex: nat)
    | ApplyCommitted(operationId: OperationId, through: nat)
    | RejectAppendEntries(operationId: OperationId, peer: NodeId, response: AppendResponse)
    | AppendLocal(operationId: OperationId, term: nat, lastLogIndex: nat)
    | CompleteOperation(operationId: OperationId)

  datatype Error =
    | NotLeader(leader: Option<NodeId>)
    | NotCandidate
    | PersistStateFailed
    | AppendFailed
    | EntrySerialisationFailed
    | ReadCommittedEntryFailed
    | EntryDeserialisationFailed
    | ApplyCommittedEntryFailed

  // What `Raft::handle` gives back; Panicked stands for a failed `assert!` or `expect`.
  datatype Outcome =
    | Done(effect: Option<Effect>)
    | Failed(error: Error)
    | Panicked

  datatype Node = Node(
    id: NodeId,
    voters: map<NodeId, Progress>,
    learners: map<NodeId, Progress>,
    role: Role,
    currentTerm: nat,
    leaderId: Option<NodeId>,
    votedFor: Option<NodeId>,
    lastApplied: nat,
    commitIndex: nat,
    lastLogIndex: nat,
    lastLogTerm: nat,
    grantedVotes: set<NodeId>)
  {
    function Hard(): HardState {
      HardState(currentTerm, votedFor)
    }
  }
}
