/**
 * What `Raft::handle` does on each event, in terms of the node's fields and of the message alone: when it grants,
 * accepts, commits, wins or refuses, what it answers, and that nothing else changes.
 */
module CoreRules {
  import opened Bytes
  import opened RaftTypes
  import opened RaftCore

  /** A log that ends at (term, index) is at least as up to date as one that ends at (otherTerm, otherIndex). */
  predicate LogAtLeast(term: nat, index: nat, otherTerm: nat, otherIndex: nat) {
    term > otherTerm || (term == otherTerm && index >= otherIndex)
  }

  // ---- Elections ----

  /** A vote is granted exactly to a candidate of a term not older, with a log not older, by a node free to vote. */
  lemma VoteGrantedIff(n: Node, q: VoteRequest, t: Transition)
    requires t == Handle(n, RequestVote(q))
    ensures t.outcome.Done? && t.outcome.effect.Some? && t.outcome.effect.value.SendRequestVoteResponse?
    ensures t.outcome.effect.value.vote.voteGranted <==>
            && q.term >= n.currentTerm
            && LogAtLeast(q.lastLogTerm, q.lastLogIndex, n.lastLogTerm, n.lastLogIndex)
            && (q.term > n.currentTerm || n.votedFor == None || n.votedFor == Some(q.candidateId))
  {
  }

  /** What the answer to a vote request says, what is saved with it, and what the node becomes. */
  lemma VoteAnswer(n: Node, q: VoteRequest, t: Transition)
    requires t == Handle(n, RequestVote(q))
    requires t.outcome.Done? && t.outcome.effect.Some? && t.outcome.effect.value.SendRequestVoteResponse?
    ensures var e, newer := t.outcome.effect.value, q.term > n.currentTerm;
            && e.peer == q.candidateId && e.vote.term == t.node.currentTerm
            && e.changedState == (if t.node.Hard() == n.Hard() then None else Some(t.node.Hard()))
            && t.node.currentTerm == (if newer then q.term else n.currentTerm)
            && t.node.votedFor == (if e.vote.voteGranted then Some(q.candidateId)
                                   else if newer then None else n.votedFor)
            && t.node.role == (if newer then Follower else n.role)
            && t.node.leaderId == (if newer then None else n.leaderId)
            && t.node.grantedVotes == (if newer then {} else n.grantedVotes)
            && t.node == n.(currentTerm := t.node.currentTerm, votedFor := t.node.votedFor, role := t.node.role,
                            leaderId := t.node.leaderId, grantedVotes := t.node.grantedVotes)
  {
  }

  /** A timeout opens a candidacy in the next term with the node's own vote, and asks every other voter. */
  lemma TimeoutAsksAll(n: Node, t: Transition)
    requires t == Handle(n, ElectionTimeout)
    ensures t.node == n.(currentTerm := n.currentTerm + 1, votedFor := Some(n.id), grantedVotes := {n.id},
                         role := Candidate)
    ensures t.outcome.Done? && t.outcome.effect.Some? && t.outcome.effect.value.SendRequestVotes?
    ensures var e := t.outcome.effect.value;
            && e.hardState == HardState(n.currentTerm + 1, Some(n.id))
            && (forall p :: p in e.peers <==> p in n.voters && p != n.id)
            && e.request.term == n.currentTerm + 1 && e.request.candidateId == n.id
            && e.request.lastLogIndex == n.lastLogIndex && e.request.lastLogTerm == n.lastLogTerm
  {
  }

  /** The effect is a heartbeat of this node, with its term, log end and commit index, to every other voter. */
  predicate BeatsFor(n: Node, outcome: Outcome) {
    && outcome.Done? && outcome.effect.Some? && outcome.effect.value.SendHeartbeat?
    && var e := outcome.effect.value;
       && e.heartbeat.term == n.currentTerm && e.heartbeat.leaderId == n.id
       && e.heartbeat.logIndex == n.lastLogIndex && e.heartbeat.logTerm == n.lastLogTerm
       && e.heartbeat.leaderCommitIndex == n.commitIndex
       && e.peers == n.voters.Keys - {n.id}
  }

  /** A vote counts exactly if it is granted, of the current term, from a voter not counted yet, for a candidate. */
  predicate Counts(n: Node, from: NodeId, vote: VoteResponse) {
    && n.role == Candidate && vote.term == n.currentTerm && vote.voteGranted
    && from in n.voters && from !in n.grantedVotes
  }

  /** A candidate becomes leader exactly if a vote counts and makes more than half of the voters; it then beats. */
  lemma WinsIff(n: Node, from: NodeId, vote: VoteResponse, t: Transition)
    requires t == Handle(n, VoteReceived(from, vote)) && n.role != Leader
    ensures t.node.role == Leader <==> Counts(n, from, vote) && |n.grantedVotes + {from}| > |n.voters| / 2
    ensures t.node.role == Leader ==> BeatsFor(t.node, t.outcome)
  {
  }

  lemma VoteCounting(n: Node, from: NodeId, vote: VoteResponse, t: Transition)
    requires t == Handle(n, VoteReceived(from, vote))
    ensures if vote.term > n.currentTerm then
              && t.node == n.(currentTerm := vote.term, role := Follower, votedFor := None, leaderId := None,
                              grantedVotes := {})
              && t.outcome == Done(None)
            else if n.role != Candidate then
              t == Transition(n, Failed(NotCandidate))
            else
              && t.node.grantedVotes == (if Counts(n, from, vote) then n.grantedVotes + {from} else n.grantedVotes)
              && t.node == n.(grantedVotes := t.node.grantedVotes, role := t.node.role)
              && (t.node.role != Leader ==> t.node.role == Candidate && t.outcome == Done(None))
  {
  }

  // ---- Heartbeats ----

  lemma HeartbeatsIff(n: Node, t: Transition)
    requires t == Handle(n, HeartbeatTimeout)
    ensures t.node == n
    ensures n.role == Leader ==> BeatsFor(n, t.outcome)
    ensures n.role != Leader ==> t.outcome == Failed(NotLeader(n.leaderId))
  {
  }

  predicate Follows(n: Node, h: HeartbeatRequest) {
    h.term >= n.currentTerm && h.logIndex == n.lastLogIndex && h.logTerm == n.lastLogTerm
  }

  /**
   * A heartbeat moves the commit index exactly to the leader's commit index as far as the log goes, and only forward,
   * if its term is not older and both logs end alike; otherwise not at all.
   */
  lemma HeartbeatCommit(n: Node, h: HeartbeatRequest, t: Transition)
    requires t == Handle(n, Heartbeat(h))
    ensures n.commitIndex <= t.node.commitIndex
    ensures t.node.commitIndex != n.commitIndex ==>
              Follows(n, h) && t.node.commitIndex <= h.leaderCommitIndex && t.node.commitIndex <= n.lastLogIndex
    ensures Follows(n, h) && h.leaderCommitIndex <= n.lastLogIndex ==> t.node.commitIndex >= h.leaderCommitIndex
    ensures Follows(n, h) && h.leaderCommitIndex > n.lastLogIndex ==> t.node.commitIndex >= n.lastLogIndex
  {
  }

  lemma HeartbeatAnswer(n: Node, h: HeartbeatRequest, t: Transition)
    requires t == Handle(n, Heartbeat(h))
    ensures t.outcome.Done? && t.outcome.effect.Some? && t.outcome.effect.value.SendHeartbeatResponse?
    ensures var e, current := t.outcome.effect.value, h.term >= n.currentTerm;
            && e.peer == h.leaderId && e.resetElectionTimer == current
            && e.applyThrough == (if t.node.commitIndex > n.commitIndex then Some(t.node.commitIndex) else None)
            && e.response.success == Follows(n, h) && e.response.term == t.node.currentTerm
            && e.response.lastLogIndex == n.lastLogIndex && e.response.lastLogTerm == n.lastLogTerm
            && e.response.leaderId == t.node.leaderId
            && if !current then t.node == n
               else t.node == n.(currentTerm := h.term, role := Follower, grantedVotes := {},
                                 leaderId := Some(h.leaderId), commitIndex := t.node.commitIndex,
                                 votedFor := if h.term > n.currentTerm then None else n.votedFor)
  {
  }

  // ---- Append requests ----

  /** The request is not older and its previous entry is in the follower's log. */
  predicate Fits(n: Node, q: AppendRequest, localPrevLogTerm: Option<nat>) {
    && q.term >= n.currentTerm && q.prevLogIndex <= n.lastLogIndex
    && (q.prevLogIndex == 0 || localPrevLogTerm == Some(q.prevLogTerm))
  }

  /** The follower cuts its log back behind the previous entry of a newer leader. */
  predicate CutsBack(n: Node, q: AppendRequest) {
    q.term > n.currentTerm && q.prevLogIndex < n.lastLogIndex
  }

  /** An append request is accepted exactly if it fits, and refused otherwise. */
  lemma AppendAcceptedIff(n: Node, op: OperationId, q: AppendRequest, localPrev: Option<nat>, t: Transition)
    requires t == Handle(n, AppendEntries(op, q, localPrev))
    ensures t.outcome.Done? && t.outcome.effect.Some?
    ensures t.outcome.effect.value.PersistEntries? <==> Fits(n, q, localPrev)
    ensures t.outcome.effect.value.RejectAppendEntries? <==> !Fits(n, q, localPrev)
  {
  }

  /** What an accepted request leads to: the position that remains, and a follower of its sender. */
  lemma AcceptedAppend(n: Node, op: OperationId, q: AppendRequest, localPrev: Option<nat>, t: Transition)
    requires t == Handle(n, AppendEntries(op, q, localPrev)) && Fits(n, q, localPrev)
    ensures t.outcome.Done? && t.outcome.effect.Some? && t.outcome.effect.value.PersistEntries?
    ensures var e, cut := t.outcome.effect.value, CutsBack(n, q);
            && e.operationId == op && e.peer == q.leaderId && e.leaderCommitIndex == q.commitIndex
            && e.truncateAfter == (if cut then Some(q.prevLogIndex) else None)
            && e.response.success && e.response.term == q.term && e.response.leaderId == Some(q.leaderId)
            && e.response.lastLogIndex == (if cut then q.prevLogIndex else n.lastLogIndex)
            && e.response.lastLogTerm == (if cut then q.prevLogTerm else n.lastLogTerm)
    ensures t.node == n.(currentTerm := q.term, role := Follower, leaderId := Some(q.leaderId),
                         votedFor := if q.term > n.currentTerm then None else n.votedFor)
  {
  }

  /** What a refused request leads to: a stale one changes nothing, another raises the term and names the leader. */
  lemma RefusedAppend(n: Node, op: OperationId, q: AppendRequest, localPrev: Option<nat>, t: Transition)
    requires t == Handle(n, AppendEntries(op, q, localPrev)) && !Fits(n, q, localPrev)
    ensures t.outcome.Done? && t.outcome.effect.Some? && t.outcome.effect.value.RejectAppendEntries?
    ensures var e := t.outcome.effect.value;
            && e.operationId == op && e.peer == q.leaderId
            && !e.response.success && e.response.term == t.node.currentTerm && e.response.leaderId == t.node.leaderId
            && e.response.lastLogIndex == n.lastLogIndex && e.response.lastLogTerm == n.lastLogTerm
    ensures t.node == if q.term < n.currentTerm then n
                      else n.(currentTerm := q.term, leaderId := Some(q.leaderId))
  {
  }

  /** After persisting, the position is the reported one and the commit index follows the leader's within the log. */
  lemma PersistedCommit(n: Node, op: OperationId, index: nat, term: nat, leaderCommit: nat, t: Transition)
    requires t == Handle(n, EntriesPersisted(op, index, term, leaderCommit))
    ensures t.node == n.(lastLogIndex := index, lastLogTerm := term, commitIndex := t.node.commitIndex)
    ensures n.commitIndex <= t.node.commitIndex
    ensures t.node.commitIndex != n.commitIndex ==> t.node.commitIndex <= leaderCommit && t.node.commitIndex <= index
    ensures leaderCommit <= index ==> t.node.commitIndex >= leaderCommit
    ensures leaderCommit > index ==> t.node.commitIndex >= index
    ensures t.outcome == Done(if t.node.commitIndex == n.commitIndex then None
                              else Some(ApplyCommitted(op, t.node.commitIndex)))
  {
  }

  lemma AppliedCompletes(n: Node, op: OperationId, through: nat, t: Transition)
    requires t == Handle(n, EntriesApplied(op, through))
    ensures t.node == n.(lastApplied := through)
    ensures t.outcome == Done(if n.role == Leader then Some(CompleteOperation(op)) else None)
  {
  }

  lemma WriteAppends(n: Node, op: OperationId, t: Transition)
    requires t == Handle(n, Write(op))
    ensures t.node == n
    ensures t.outcome == if n.role == Leader then Done(Some(AppendLocal(op, n.currentTerm, n.lastLogIndex)))
                         else Failed(NotLeader(n.leaderId))
  {
  }

  // ---- Append responses ----

  /** The voters whose recorded position, with this response counted, is the leader's last index or later. */
  function Reached(n: Node, from: NodeId): set<NodeId> {
    set p | p in n.voters && (p == from || n.voters[p].matchIndex >= n.lastLogIndex)
  }

  /** A voter's response that names the leader's log end commits the whole log exactly if that makes a majority. */
  lemma CommitsIffMajority(n: Node, op: OperationId, from: NodeId, r: AppendResponse, t: Transition)
    requires t == Handle(n, AppendEntriesResponse(op, from, r))
    requires n.role == Leader && r.term <= n.currentTerm && from in n.voters && from !in n.learners
    requires r.lastLogIndex == n.lastLogIndex > n.commitIndex
    ensures t.node == n.(voters := n.voters[from := Progress(n.lastLogIndex + 1, n.lastLogIndex)],
                         commitIndex := t.node.commitIndex)
    ensures t.node.commitIndex == n.lastLogIndex <==> |Reached(n, from)| > |n.voters| / 2
    ensures t.node.commitIndex == n.lastLogIndex || t.node.commitIndex == n.commitIndex
    ensures t.outcome == Done(if t.node.commitIndex == n.lastLogIndex then Some(ApplyCommitted(op, n.lastLogIndex))
                              else None)
  {
    var voters := n.voters[from := Progress(n.lastLogIndex + 1, n.lastLogIndex)];
    assert CaughtUp(n.(voters := voters)) == Reached(n, from);
    assert voters.Keys == n.voters.Keys;
    assert |voters| == |voters.Keys| && |n.voters| == |n.voters.Keys|;
  }

  /** One target for the sender of a response, at the position it reported. */
  function AskAgain(n: Node, op: OperationId, from: NodeId, r: AppendResponse): Outcome {
    Done(Some(SendAppendEntries(op, {ReplicationTarget(from, r.lastLogIndex, r.lastLogTerm, n.id, n.commitIndex)})))
  }

  /** Every other response: refused by non-leaders, ends the leadership, panics, asks again, or records a position. */
  lemma OtherAppendResponses(n: Node, op: OperationId, from: NodeId, r: AppendResponse, t: Transition)
    requires t == Handle(n, AppendEntriesResponse(op, from, r))
    ensures n.role != Leader ==> t == Transition(n, Failed(NotLeader(r.leaderId)))
    ensures n.role == Leader && r.term > n.currentTerm ==>
              && t.node == n.(currentTerm := r.term, role := Follower, votedFor := None, leaderId := r.leaderId,
                              grantedVotes := {})
              && t.outcome == Failed(NotLeader(r.leaderId))
    ensures t.outcome == Panicked <==> n.role == Leader && r.term <= n.currentTerm && r.lastLogIndex > n.lastLogIndex
    ensures n.role == Leader && r.term <= n.currentTerm && r.lastLogIndex < n.lastLogIndex ==>
              && t.node == (if r.success then RecordedFrom(n, from, r.lastLogIndex) else n)
              && t.outcome == (if !r.success || from in n.learners || from in n.voters then AskAgain(n, op, from, r)
                               else Done(None))
    ensures n.role == Leader && r.term <= n.currentTerm && r.lastLogIndex == n.lastLogIndex
            && (from in n.learners || from !in n.voters || n.commitIndex >= n.lastLogIndex) ==>
              t == Transition(RecordedFrom(n, from, r.lastLogIndex), Done(None))
  {
  }

  /** The sender's position, of a learner before a voter; others are not recorded. */
  function RecordedFrom(n: Node, from: NodeId, index: nat): Node {
    if from in n.learners then n.(learners := n.learners[from := Progress(index + 1, index)])
    else if from in n.voters then n.(voters := n.voters[from := Progress(index + 1, index)])
    else n
  }

  // ---- Heartbeat responses ----

  /** What a refused heartbeat does to a peer's progress: the match stays, the next index moves back. */
  predicate MovesBack(before: Progress, r: AppendResponse, after: Progress) {
    && after.matchIndex == before.matchIndex
    && after.nextIndex <= before.nextIndex && (before.nextIndex > 0 ==> after.nextIndex < before.nextIndex)
    && after.nextIndex <= r.lastLogIndex + 1
    && (after.nextIndex == before.nextIndex - 1 || after.nextIndex == r.lastLogIndex + 1 || after.nextIndex == 0)
  }

  /** What an accepted heartbeat does to it: the match reaches the reported position within the leader's log. */
  predicate MovesOn(before: Progress, r: AppendResponse, lastLogIndex: nat, after: Progress) {
    && after.matchIndex >= before.matchIndex && after.nextIndex >= before.nextIndex
    && after.nextIndex > after.matchIndex
    && (r.lastLogIndex <= lastLogIndex ==> after.matchIndex >= r.lastLogIndex)
    && (r.lastLogIndex > lastLogIndex ==> after.matchIndex >= lastLogIndex)
    && (after.matchIndex != before.matchIndex ==>
          after.matchIndex <= r.lastLogIndex && after.matchIndex <= lastLogIndex)
    && (after.nextIndex != before.nextIndex ==> after.nextIndex == after.matchIndex + 1)
  }

  predicate Moves(before: Progress, r: AppendResponse, lastLogIndex: nat, after: Progress) {
    if r.success then MovesOn(before, r, lastLogIndex, after) else MovesBack(before, r, after)
  }

  /** A heartbeat response of the term moves the progress of its sender, a voter before a learner, and nothing else. */
  lemma HeartbeatResponseMoves(n: Node, from: NodeId, r: AppendResponse, t: Transition)
    requires t == Handle(n, HeartbeatResponse(from, r))
    requires n.role == Leader && r.term == n.currentTerm
    ensures t.outcome == Done(None)
    ensures from in n.voters ==>
              && from in t.node.voters && t.node == n.(voters := n.voters[from := t.node.voters[from]])
              && Moves(n.voters[from], r, n.lastLogIndex, t.node.voters[from])
    ensures from !in n.voters && from in n.learners ==>
              && from in t.node.learners && t.node == n.(learners := n.learners[from := t.node.learners[from]])
              && Moves(n.learners[from], r, n.lastLogIndex, t.node.learners[from])
    ensures from !in n.voters && from !in n.learners ==> t.node == n
  {
  }

  lemma OtherHeartbeatResponses(n: Node, from: NodeId, r: AppendResponse, t: Transition)
    requires t == Handle(n, HeartbeatResponse(from, r)) && (n.role != Leader || r.term != n.currentTerm)
    ensures if r.term > n.currentTerm then
              && t.node == n.(currentTerm := r.term, role := Follower, votedFor := None, leaderId := r.leaderId,
                              grantedVotes := {})
              && t.outcome == Done(None)
            else t == Transition(n, if n.role != Leader then Failed(NotLeader(n.leaderId)) else Done(None))
  {
  }
}
