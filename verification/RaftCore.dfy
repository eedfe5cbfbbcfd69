/**
 * `Raft::handle` of `src/raft/core.rs`. Each handler is given twice: as a function from the state of a node
 * to its next state and outcome, which the proofs about runs use, and as a method that updates the fields of
 * a `Raft` object in the order of the source and is proved to compute that function.
 */
module RaftCore {
  import opened Bytes
  import opened RaftTypes

  datatype Transition = Transition(node: Node, outcome: Outcome)

  function Peers(n: Node): set<NodeId> {
    n.voters.Keys - {n.id}
  }

  function Response(n: Node, success: bool): AppendResponse {
    AppendResponse(n.currentTerm, success, n.lastLogIndex, n.lastLogTerm, n.leaderId)
  }

  function LeaderHeartbeat(n: Node): Effect {
    SendHeartbeat(Peers(n), HeartbeatRequest(n.currentTerm, n.id, n.lastLogIndex, n.lastLogTerm, n.commitIndex))
  }

  // A newer term seen in a message: give up role, vote and collected votes.
  function StepDown(n: Node, term: nat, leader: Option<NodeId>): Node {
    n.(currentTerm := term, role := Follower, votedFor := None, leaderId := leader, grantedVotes := {})
  }

  function Retry(n: Node, op: OperationId, from: NodeId, r: AppendResponse): Outcome {
    Done(Some(SendAppendEntries(op, {ReplicationTarget(from, r.lastLogIndex, r.lastLogTerm, n.id, n.commitIndex)})))
  }

  function OnElectionTimeout(n: Node): Transition {
    var n' := n.(currentTerm := n.currentTerm + 1, votedFor := Some(n.id), grantedVotes := {n.id}, role := Candidate);
    Transition(n', Done(Some(SendRequestVotes(n'.Hard(), Peers(n'),
      VoteRequest(n'.currentTerm, n.id, n.lastLogIndex, n.lastLogTerm)))))
  }

  predicate UpToDate(request: VoteRequest, lastLogTerm: nat, lastLogIndex: nat) {
    request.lastLogTerm > lastLogTerm ||
    (request.lastLogTerm == lastLogTerm && request.lastLogIndex >= lastLogIndex)
  }

  predicate Grants(n: Node, request: VoteRequest) {
    && request.term == n.currentTerm
    && UpToDate(request, n.lastLogTerm, n.lastLogIndex)
    && (n.votedFor == None || n.votedFor == Some(request.candidateId))
  }

  function OnRequestVote(n: Node, request: VoteRequest): Transition {
    var newer := request.term > n.currentTerm;
    var m := if newer then StepDown(n, request.term, None) else n;
    var granted := Grants(m, request);
    var recorded := granted && m.votedFor != Some(request.candidateId);
    var m' := if recorded then m.(votedFor := Some(request.candidateId)) else m;
    Transition(m', Done(Some(SendRequestVoteResponse(
      if newer || recorded then Some(m'.Hard()) else None,
      request.candidateId, VoteResponse(m'.currentTerm, granted)))))
  }

  function OnHeartbeatTimeout(n: Node): Transition {
    Transition(n, if n.role != Leader then Failed(NotLeader(n.leaderId)) else Done(Some(LeaderHeartbeat(n))))
  }

  function OnHeartbeat(n: Node, h: HeartbeatRequest): Transition {
    if h.term < n.currentTerm then
      Transition(n, Done(Some(SendHeartbeatResponse(h.leaderId, Response(n, false), false, None))))
    else
      var m := n.(currentTerm := h.term, votedFor := if h.term > n.currentTerm then None else n.votedFor,
                  role := Follower, grantedVotes := {}, leaderId := Some(h.leaderId));
      if h.logIndex != n.lastLogIndex || h.logTerm != n.lastLogTerm then
        Transition(m, Done(Some(SendHeartbeatResponse(h.leaderId, Response(m, false), true, None))))
      else
        var newCommit := Min(h.leaderCommitIndex, n.lastLogIndex);
        var advances := newCommit > n.commitIndex;
        Transition(if advances then m.(commitIndex := newCommit) else m,
          Done(Some(SendHeartbeatResponse(h.leaderId, Response(m, true), true,
                                          if advances then Some(newCommit) else None))))
  }

  predicate LogMismatch(n: Node, request: AppendRequest, localPrevLogTerm: Option<nat>) {
    request.prevLogIndex > n.lastLogIndex ||
    !(request.prevLogIndex == 0 || localPrevLogTerm == Some(request.prevLogTerm))
  }

  function OnAppendEntries(n: Node, op: OperationId, request: AppendRequest,
                           localPrevLogTerm: Option<nat>): Transition {
    if request.term < n.currentTerm then
      Transition(n, Done(Some(RejectAppendEntries(op, request.leaderId, Response(n, false)))))
    else if LogMismatch(n, request, localPrevLogTerm) then
      var m := n.(currentTerm := request.term, leaderId := Some(request.leaderId));
      Transition(m, Done(Some(RejectAppendEntries(op, request.leaderId, Response(m, false)))))
    else
      var newer := request.term > n.currentTerm;
      var m := n.(currentTerm := request.term, role := Follower, leaderId := Some(request.leaderId),
                  votedFor := if newer then None else n.votedFor);
      if newer && request.prevLogIndex < n.lastLogIndex then
        Transition(m, Done(Some(PersistEntries(op, request.leaderId,
          Response(m, true).(lastLogIndex := request.prevLogIndex, lastLogTerm := request.prevLogTerm),
          Some(request.prevLogIndex), request.commitIndex))))
      else
        Transition(m, Done(Some(PersistEntries(op, request.leaderId, Response(m, true), None, request.commitIndex))))
  }

  function OnEntriesPersisted(n: Node, op: OperationId, lastLogIndex: nat, lastLogTerm: nat,
                              leaderCommit: nat): Transition {
    var m := n.(lastLogIndex := lastLogIndex, lastLogTerm := lastLogTerm);
    var newCommit := Min(leaderCommit, lastLogIndex);
    if newCommit > n.commitIndex then
      Transition(m.(commitIndex := newCommit), Done(Some(ApplyCommitted(op, newCommit))))
    else
      Transition(m, Done(None))
  }

  function OnEntriesApplied(n: Node, op: OperationId, through: nat): Transition {
    Transition(n.(lastApplied := through), Done(if n.role == Leader then Some(CompleteOperation(op)) else None))
  }

  function Targets(n: Node, group: map<NodeId, Progress>): set<ReplicationTarget> {
    set p | p in group && p != n.id ::
      ReplicationTarget(p, Min(group[p].matchIndex, n.lastLogIndex), n.lastLogTerm, n.id, n.commitIndex)
  }

  function OnLocalEntryAppended(n: Node, op: OperationId, index: nat, term: nat): Transition {
    if n.role != Leader then
      Transition(n, Failed(NotLeader(n.leaderId)))
    else
      var targets := Targets(n, n.voters) + Targets(n, n.learners);
      var m := n.(lastLogIndex := index, lastLogTerm := term);
      if n.id !in n.voters then
        Transition(m, Panicked)
      else
        var m' := m.(voters := n.voters[n.id := Progress(index + 1, index)]);
        if targets == {} then
          Transition(m'.(commitIndex := index), Done(Some(ApplyCommitted(op, index))))
        else
          Transition(m', Done(Some(SendAppendEntries(op, targets))))
  }

  function OnVoteReceived(n: Node, from: NodeId, vote: VoteResponse): Transition {
    if vote.term > n.currentTerm then
      Transition(StepDown(n, vote.term, None), Done(None))
    else if n.role != Candidate then
      Transition(n, Failed(NotCandidate))
    else if vote.term < n.currentTerm || from !in n.voters || !vote.voteGranted || from in n.grantedVotes then
      Transition(n, Done(None))
    else
      var m := n.(grantedVotes := n.grantedVotes + {from});
      if |m.grantedVotes| > |n.voters| / 2 then
        Transition(m.(role := Leader), Done(Some(LeaderHeartbeat(m))))
      else
        Transition(m, Done(None))
  }

  function Matched(p: Progress, response: AppendResponse, lastLogIndex: nat): Progress {
    if response.success then
      var matchIndex := Max(p.matchIndex, Min(response.lastLogIndex, lastLogIndex));
      Progress(Max(p.nextIndex, matchIndex + 1), matchIndex)
    else
      p.(nextIndex := Min(if p.nextIndex == 0 then 0 else p.nextIndex - 1, response.lastLogIndex + 1))
  }

  function OnHeartbeatResponse(n: Node, from: NodeId, response: AppendResponse): Transition {
    if response.term > n.currentTerm then
      Transition(StepDown(n, response.term, response.leaderId), Done(None))
    else if n.role != Leader then
      Transition(n, Failed(NotLeader(n.leaderId)))
    else if response.term < n.currentTerm then
      Transition(n, Done(None))
    else if from in n.voters then
      Transition(n.(voters := n.voters[from := Matched(n.voters[from], response, n.lastLogIndex)]), Done(None))
    else if from in n.learners then
      Transition(n.(learners := n.learners[from := Matched(n.learners[from], response, n.lastLogIndex)]), Done(None))
    else
      Transition(n, Done(None))
  }

  function OnWrite(n: Node, op: OperationId): Transition {
    Transition(n, if n.role != Leader then Failed(NotLeader(n.leaderId))
                  else Done(Some(AppendLocal(op, n.currentTerm, n.lastLogIndex))))
  }

  function CaughtUp(n: Node): set<NodeId> {
    set p | p in n.voters && n.voters[p].matchIndex >= n.lastLogIndex
  }

  function OnAppendEntriesResponse(n: Node, op: OperationId, from: NodeId, r: AppendResponse): Transition {
    if n.role != Leader then
      Transition(n, Failed(NotLeader(r.leaderId)))
    else if r.term > n.currentTerm then
      Transition(StepDown(n, r.term, r.leaderId), Failed(NotLeader(r.leaderId)))
    else if r.lastLogIndex > n.lastLogIndex then
      Transition(n, Panicked)
    else if !r.success && r.lastLogIndex < n.lastLogIndex then
      Transition(n, Retry(n, op, from, r))
    else
      var reported := Progress(r.lastLogIndex + 1, r.lastLogIndex);
      if from in n.learners then
        var m := n.(learners := n.learners[from := reported]);
        Transition(m, if r.lastLogIndex < n.lastLogIndex then Retry(n, op, from, r) else Done(None))
      else if from in n.voters then
        var m := n.(voters := n.voters[from := reported]);
        if r.lastLogIndex < n.lastLogIndex then
          Transition(m, Retry(n, op, from, r))
        else if |CaughtUp(m)| > |m.voters| / 2 && m.commitIndex < m.lastLogIndex then
          Transition(m.(commitIndex := m.lastLogIndex), Done(Some(ApplyCommitted(op, m.lastLogIndex))))
        else
          Transition(m, Done(None))
      else
        Transition(n, Done(None))
  }

  function Handle(n: Node, ev: Event): Transition {
    match ev
    case ElectionTimeout => OnElectionTimeout(n)
    case HeartbeatTimeout => OnHeartbeatTimeout(n)
    case Heartbeat(h) => OnHeartbeat(n, h)
    case RequestVote(request) => OnRequestVote(n, request)
    case AppendEntries(op, request, localPrev) => OnAppendEntries(n, op, request, localPrev)
    case AppendEntriesResponse(op, from, response) => OnAppendEntriesResponse(n, op, from, response)
    case EntriesPersisted(op, index, term, commit) => OnEntriesPersisted(n, op, index, term, commit)
    case EntriesApplied(op, through) => OnEntriesApplied(n, op, through)
    case VoteReceived(from, vote) => OnVoteReceived(n, from, vote)
    case HeartbeatResponse(from, response) => OnHeartbeatResponse(n, from, response)
    case LocalEntriesAppended(op, index, term) => OnLocalEntryAppended(n, op, index, term)
    case Write(op) => OnWrite(n, op)
  }

  /** The node as an object whose handlers update its fields in place. */
  class Raft {
    const id: NodeId
    var voters: map<NodeId, Progress>
    var learners: map<NodeId, Progress>
    var role: Role
    var currentTerm: nat
    var leaderId: Option<NodeId>
    var votedFor: Option<NodeId>
    var lastApplied: nat
    var commitIndex: nat
    var lastLogIndex: nat
    var lastLogTerm: nat
    var grantedVotes: set<NodeId>

    function Value(): Node
      reads this
    {
      Node(id, voters, learners, role, currentTerm, leaderId, votedFor,
           lastApplied, commitIndex, lastLogIndex, lastLogTerm, grantedVotes)
    }

    constructor (n: Node)
      ensures Value() == n
    {
      id := n.id;
      voters, learners, role, currentTerm := n.voters, n.learners, n.role, n.currentTerm;
      leaderId, votedFor, lastApplied, commitIndex := n.leaderId, n.votedFor, n.lastApplied, n.commitIndex;
      lastLogIndex, lastLogTerm, grantedVotes := n.lastLogIndex, n.lastLogTerm, n.grantedVotes;
    }

    method HandleElectionTimeout() returns (outcome: Outcome)
      modifies this
      ensures Transition(Value(), outcome) == OnElectionTimeout(old(Value()))
    {
      currentTerm := currentTerm + 1;
      votedFor := Some(id);
      grantedVotes := {};
      grantedVotes := grantedVotes + {id};
      var peers := voters.Keys - {id};
      role := Candidate;
      return Done(Some(SendRequestVotes(HardState(currentTerm, votedFor), peers,
        VoteRequest(currentTerm, id, lastLogIndex, lastLogTerm))));
    }

    method HandleRequestVote(request: VoteRequest) returns (outcome: Outcome)
      modifies this
      ensures Transition(Value(), outcome) == OnRequestVote(old(Value()), request)
    {
      var hardStateChanged := false;
      if request.term > currentTerm {
        currentTerm := request.term;
        votedFor := None;
        role := Follower;
        leaderId := None;
        grantedVotes := {};
        hardStateChanged := true;
      }
      var upToDate := request.lastLogTerm > lastLogTerm ||
        (request.lastLogTerm == lastLogTerm && request.lastLogIndex >= lastLogIndex);
      var canVote := votedFor == None || votedFor == Some(request.candidateId);
      var granted := request.term == currentTerm && upToDate && canVote;
      if granted && votedFor != Some(request.candidateId) {
        votedFor := Some(request.candidateId);
        hardStateChanged := true;
      }
      return Done(Some(SendRequestVoteResponse(
        if hardStateChanged then Some(HardState(currentTerm, votedFor)) else None,
        request.candidateId, VoteResponse(currentTerm, granted))));
    }

    method HandleHeartbeatTimeout() returns (outcome: Outcome)
      ensures Transition(Value(), outcome) == OnHeartbeatTimeout(Value())
    {
      if role != Leader {
        return Failed(NotLeader(leaderId));
      }
      return Done(Some(SendHeartbeat(voters.Keys - {id},
        HeartbeatRequest(currentTerm, id, lastLogIndex, lastLogTerm, commitIndex))));
    }

    method HandleHeartbeat(h: HeartbeatRequest) returns (outcome: Outcome)
      modifies this
      ensures Transition(Value(), outcome) == OnHeartbeat(old(Value()), h)
    {
      if h.term < currentTerm {
        return Done(Some(SendHeartbeatResponse(h.leaderId,
          AppendResponse(currentTerm, false, lastLogIndex, lastLogTerm, leaderId), false, None)));
      }
      if h.term > currentTerm {
        currentTerm := h.term;
        votedFor := None;
      }
      role := Follower;
      grantedVotes := {};
      leaderId := Some(h.leaderId);
      if !(h.logIndex == lastLogIndex && h.logTerm == lastLogTerm) {
        return Done(Some(SendHeartbeatResponse(h.leaderId,
          AppendResponse(currentTerm, false, lastLogIndex, lastLogTerm, leaderId), true, None)));
      }
      var newCommit := Min(h.leaderCommitIndex, lastLogIndex);
      var applyThrough: Option<nat> := None;
      if newCommit > commitIndex {
        commitIndex := newCommit;
        applyThrough := Some(newCommit);
      }
      return Done(Some(SendHeartbeatResponse(h.leaderId,
        AppendResponse(currentTerm, true, lastLogIndex, lastLogTerm, leaderId), true, applyThrough)));
    }

    method HandleAppendEntries(op: OperationId, request: AppendRequest, localPrevLogTerm: Option<nat>)
      returns (outcome: Outcome)
      modifies this
      ensures Transition(Value(), outcome) == OnAppendEntries(old(Value()), op, request, localPrevLogTerm)
    {
      if request.term < currentTerm {
        return Done(Some(RejectAppendEntries(op, request.leaderId,
          AppendResponse(currentTerm, false, lastLogIndex, lastLogTerm, leaderId))));
      }
      var previousEntryMatches := request.prevLogIndex == 0 || localPrevLogTerm == Some(request.prevLogTerm);
      if request.prevLogIndex > lastLogIndex || !previousEntryMatches {
        currentTerm := request.term;
        leaderId := Some(request.leaderId);
        return Done(Some(RejectAppendEntries(op, request.leaderId,
          AppendResponse(currentTerm, false, lastLogIndex, lastLogTerm, leaderId))));
      }
      if request.term > currentTerm {
        votedFor := None;
        if request.prevLogIndex < lastLogIndex {
          role := Follower;
          currentTerm := request.term;
          leaderId := Some(request.leaderId);
          return Done(Some(PersistEntries(op, request.leaderId,
            AppendResponse(currentTerm, true, request.prevLogIndex, request.prevLogTerm, leaderId),
            Some(request.prevLogIndex), request.commitIndex)));
        }
      }
      currentTerm := request.term;
      role := Follower;
      leaderId := Some(request.leaderId);
      return Done(Some(PersistEntries(op, request.leaderId,
        AppendResponse(currentTerm, true, lastLogIndex, lastLogTerm, leaderId), None, request.commitIndex)));
    }

    method HandleEntriesPersisted(op: OperationId, index: nat, term: nat, leaderCommit: nat) returns (outcome: Outcome)
      modifies this
      ensures Transition(Value(), outcome) == OnEntriesPersisted(old(Value()), op, index, term, leaderCommit)
    {
      lastLogIndex := index;
      lastLogTerm := term;
      var newCommit := Min(leaderCommit, lastLogIndex);
      if newCommit > commitIndex {
        commitIndex := newCommit;
        return Done(Some(ApplyCommitted(op, commitIndex)));
      }
      return Done(None);
    }

    method HandleEntriesApplied(op: OperationId, through: nat) returns (outcome: Outcome)
      modifies this
      ensures Transition(Value(), outcome) == OnEntriesApplied(old(Value()), op, through)
    {
      lastApplied := through;
      if role == Leader {
        return Done(Some(CompleteOperation(op)));
      }
      return Done(None);
    }

    method HandleLocalEntryAppended(op: OperationId, index: nat, term: nat) returns (outcome: Outcome)
      modifies this
      ensures Transition(Value(), outcome) == OnLocalEntryAppended(old(Value()), op, index, term)
    {
      if role != Leader {
        return Failed(NotLeader(leaderId));
      }
      var targets := Targets(Value(), voters) + Targets(Value(), learners);
      lastLogIndex := index;
      lastLogTerm := term;
      if id !in voters {
        return Panicked;
      }
      voters := voters[id := Progress(lastLogIndex + 1, lastLogIndex)];
      if targets == {} {
        commitIndex := lastLogIndex;
        return Done(Some(ApplyCommitted(op, commitIndex)));
      }
      return Done(Some(SendAppendEntries(op, targets)));
    }

    method HandleVoteResponse(from: NodeId, vote: VoteResponse) returns (outcome: Outcome)
      modifies this
      ensures Transition(Value(), outcome) == OnVoteReceived(old(Value()), from, vote)
    {
      if vote.term > currentTerm {
        currentTerm := vote.term;
        role := Follower;
        votedFor := None;
        leaderId := None;
        grantedVotes := {};
        return Done(None);
      }
      if role != Candidate {
        return Failed(NotCandidate);
      }
      if vote.term < currentTerm || from !in voters || !vote.voteGranted || from in grantedVotes {
        return Done(None);
      }
      grantedVotes := grantedVotes + {from};
      if |grantedVotes| > |voters| / 2 {
        role := Leader;
        return Done(Some(SendHeartbeat(voters.Keys - {id},
          HeartbeatRequest(currentTerm, id, lastLogIndex, lastLogTerm, commitIndex))));
      }
      return Done(None);
    }

    method HandleHeartbeatResponse(from: NodeId, response: AppendResponse) returns (outcome: Outcome)
      modifies this
      ensures Transition(Value(), outcome) == OnHeartbeatResponse(old(Value()), from, response)
    {
      if response.term > currentTerm {
        currentTerm := response.term;
        role := Follower;
        votedFor := None;
        leaderId := response.leaderId;
        grantedVotes := {};
        return Done(None);
      }
      if role != Leader {
        return Failed(NotLeader(leaderId));
      }
      if response.term < currentTerm {
        return Done(None);
      }
      if from !in voters && from !in learners {
        return Done(None);
      }
      var progress := if from in voters then voters[from] else learners[from];
      if response.success {
        var matchedIndex := if response.lastLogIndex <= lastLogIndex then response.lastLogIndex else lastLogIndex;
        if progress.matchIndex < matchedIndex {
          progress := progress.(matchIndex := matchedIndex);
        }
        if progress.nextIndex < progress.matchIndex + 1 {
          progress := progress.(nextIndex := progress.matchIndex + 1);
        }
      } else {
        var previousIndex := if progress.nextIndex == 0 then 0 else progress.nextIndex - 1;
        var followerNextIndex := response.lastLogIndex + 1;
        var nextIndex := if previousIndex <= followerNextIndex then previousIndex else followerNextIndex;
        progress := progress.(nextIndex := nextIndex);
      }
      if from in voters {
        voters := voters[from := progress];
      } else {
        learners := learners[from := progress];
      }
      return Done(None);
    }

    method HandleWrite(op: OperationId) returns (outcome: Outcome)
      ensures Transition(Value(), outcome) == OnWrite(Value(), op)
    {
      if role != Leader {
        return Failed(NotLeader(leaderId));
      }
      return Done(Some(AppendLocal(op, currentTerm, lastLogIndex)));
    }

    method HandleAppendEntriesResponse(op: OperationId, from: NodeId, r: AppendResponse) returns (outcome: Outcome)
      modifies this
      ensures Transition(Value(), outcome) == OnAppendEntriesResponse(old(Value()), op, from, r)
    {
      if role != Leader {
        return Failed(NotLeader(r.leaderId));
      }
      if r.term > currentTerm {
        currentTerm := r.term;
        leaderId := r.leaderId;
        role := Follower;
        votedFor := None;
        grantedVotes := {};
        return Failed(NotLeader(r.leaderId));
      }
      var again := SendAppendEntries(op, {ReplicationTarget(from, r.lastLogIndex, r.lastLogTerm, id, commitIndex)});
      if r.lastLogIndex > lastLogIndex {
        return Panicked;
      }
      if !r.success && r.lastLogIndex < lastLogIndex {
        return Done(Some(again));
      }
      if from in learners {
        learners := learners[from := Progress(r.lastLogIndex + 1, r.lastLogIndex)];
        if learners[from].matchIndex < lastLogIndex {
          return Done(Some(again));
        }
        return Done(None);
      }
      if from in voters {
        voters := voters[from := Progress(r.lastLogIndex + 1, r.lastLogIndex)];
        if voters[from].matchIndex < lastLogIndex {
          return Done(Some(again));
        }
        var caughtUp := |set p | p in voters && voters[p].matchIndex >= lastLogIndex|;
        if caughtUp > |voters| / 2 && commitIndex < lastLogIndex {
          commitIndex := lastLogIndex;
          return Done(Some(ApplyCommitted(op, commitIndex)));
        }
      }
      return Done(None);
    }

    method HandleEvent(ev: Event) returns (outcome: Outcome)
      modifies this
      ensures Transition(Value(), outcome) == Handle(old(Value()), ev)
    {
      match ev {
        case ElectionTimeout => outcome := HandleElectionTimeout();
        case HeartbeatTimeout => outcome := HandleHeartbeatTimeout();
        case Heartbeat(h) => outcome := HandleHeartbeat(h);
        case RequestVote(request) => outcome := HandleRequestVote(request);
        case AppendEntries(op, request, localPrev) => outcome := HandleAppendEntries(op, request, localPrev);
        case AppendEntriesResponse(op, from, response) => outcome := HandleAppendEntriesResponse(op, from, response);
        case EntriesPersisted(op, index, term, commit) => outcome := HandleEntriesPersisted(op, index, term, commit);
        case EntriesApplied(op, through) => outcome := HandleEntriesApplied(op, through);
        case VoteReceived(from, vote) => outcome := HandleVoteResponse(from, vote);
        case HeartbeatResponse(from, response) => outcome := HandleHeartbeatResponse(from, response);
        case LocalEntriesAppended(op, index, term) => outcome := HandleLocalEntryAppended(op, index, term);
        case Write(op) => outcome := HandleWrite(op);
      }
    }
  }
}
