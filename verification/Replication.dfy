/** What a leader sends out for a local append, and what it makes of a refusal. */
module Replication {
  import opened Bytes
  import opened RaftTypes
  import opened RaftCore
  import opened CoreRules

  /** A follower's refusal of an append request that does not fit its log, as the leader of that term sees it. */
  function Refused(l: Node, f: Node, op: OperationId, request: AppendRequest, localPrev: Option<nat>): (r: Transition)
    requires l.role == Leader && request.term == l.currentTerm >= f.currentTerm && !Fits(f, request, localPrev)
  {
    OnAppendEntriesResponse(l, op, f.id, OnAppendEntries(f, op, request, localPrev).outcome.effect.value.response)
  }

  /** The request that the leader's transport builds for a target. */
  function RequestFor(l: Node, target: ReplicationTarget): AppendRequest {
    AppendRequest(l.currentTerm, target.leaderId, target.lastLogIndex, target.lastLogTerm, target.leaderCommitIndex)
  }

  /**
   * A refusal makes the leader panic exactly if the follower's log is longer. If it is shorter, the leader asks again
   * at the follower's log end, and that one retry is accepted without truncation. If it has the same length, the
   * leader does not ask again but records the follower as caught up, although it refused.
   */
  lemma RefusedAppendExchange(l: Node, f: Node, op: OperationId, request: AppendRequest, localPrev: Option<nat>)
    requires l.role == Leader && request.term == l.currentTerm >= f.currentTerm && !Fits(f, request, localPrev)
    requires request.leaderId == l.id && f.id in l.voters && f.id !in l.learners
    ensures var t := Refused(l, f, op, request, localPrev);
            && (t.outcome == Panicked <==> f.lastLogIndex > l.lastLogIndex)
            && (f.lastLogIndex == l.lastLogIndex ==>
                  f.id in t.node.voters && t.node.voters[f.id].matchIndex == l.lastLogIndex)
            && (f.lastLogIndex < l.lastLogIndex ==>
                  var f' := OnAppendEntries(f, op, request, localPrev).node;
                  && t.node == l
                  && t.outcome.Done? && t.outcome.effect.Some? && t.outcome.effect.value.SendAppendEntries?
                  && var targets := t.outcome.effect.value.targets;
                     && |targets| == 1
                     && forall target :: target in targets ==>
                          && target.peer == f.id
                          && var again := OnAppendEntries(f', op, RequestFor(l, target), Some(f.lastLogTerm));
                             && again.outcome ==
                                  Done(Some(PersistEntries(op, l.id, Response(again.node, true), None, l.commitIndex)))
                             && again.node.role == Follower && again.node.currentTerm == l.currentTerm
                             && again.node.leaderId == Some(l.id) && again.node.lastLogIndex == f.lastLogIndex)
  {
  }

  function PeersOf(targets: set<ReplicationTarget>): set<NodeId> {
    set target | target in targets :: target.peer
  }

  /** The position the peer has confirmed, as far as it lies within the leader's log. */
  predicate FromConfirmed(l: Node, group: map<NodeId, Progress>, target: ReplicationTarget) {
    && target.peer in group
    && target.lastLogIndex <= group[target.peer].matchIndex && target.lastLogIndex <= l.lastLogIndex
    && (target.lastLogIndex == group[target.peer].matchIndex || target.lastLogIndex == l.lastLogIndex)
    && target.lastLogTerm == l.lastLogTerm
    && target.leaderId == l.id && target.leaderCommitIndex == l.commitIndex
  }

  lemma GroupTargets(l: Node, group: map<NodeId, Progress>)
    ensures PeersOf(Targets(l, group)) == group.Keys - {l.id}
    ensures forall target :: target in Targets(l, group) ==> FromConfirmed(l, group, target)
  {
    forall p | p in group.Keys - {l.id}
      ensures p in PeersOf(Targets(l, group))
    {
      var target := ReplicationTarget(p, Min(group[p].matchIndex, l.lastLogIndex), l.lastLogTerm, l.id, l.commitIndex);
      assert target in Targets(l, group) && target.peer == p;
    }
  }

  lemma AllTargets(l: Node, targets: set<ReplicationTarget>, others: set<NodeId>)
    requires targets == Targets(l, l.voters) + Targets(l, l.learners)
    requires others == l.voters.Keys + l.learners.Keys - {l.id}
    ensures PeersOf(targets) == others
    ensures targets == {} <==> others == {}
    ensures forall target :: target in targets ==>
              FromConfirmed(l, l.voters, target) || FromConfirmed(l, l.learners, target)
  {
    GroupTargets(l, l.voters);
    GroupTargets(l, l.learners);
    assert PeersOf(targets) == PeersOf(Targets(l, l.voters)) + PeersOf(Targets(l, l.learners));
    if targets != {} {
      var target :| target in targets;
      assert target.peer in PeersOf(targets);
    }
  }

  /** Only a leader records a local entry, and it must be a voter. */
  lemma LocalAppendRefused(l: Node, op: OperationId, index: nat, term: nat, t: Transition)
    requires t == Handle(l, LocalEntriesAppended(op, index, term)) && (l.role != Leader || l.id !in l.voters)
    ensures if l.role != Leader then t == Transition(l, Failed(NotLeader(l.leaderId))) else t.outcome == Panicked
  {
  }

  /**
   * A local append is replicated to every other voter and learner and to nobody else, each from the position that
   * the peer has confirmed; without others it is committed at once.
   */
  lemma LocalAppendReachesAll(l: Node, op: OperationId, index: nat, term: nat, t: Transition)
    requires l.role == Leader && l.id in l.voters && t == Handle(l, LocalEntriesAppended(op, index, term))
    ensures t.node == l.(lastLogIndex := index, lastLogTerm := term, commitIndex := t.node.commitIndex,
                         voters := l.voters[l.id := Progress(index + 1, index)])
    ensures var others := l.voters.Keys + l.learners.Keys - {l.id};
            if others == {} then
              t.node.commitIndex == index && t.outcome == Done(Some(ApplyCommitted(op, index)))
            else
              && t.node.commitIndex == l.commitIndex
              && t.outcome.Done? && t.outcome.effect.Some? && t.outcome.effect.value.SendAppendEntries?
              && t.outcome.effect.value.operationId == op
              && var targets := t.outcome.effect.value.targets;
                 && PeersOf(targets) == others
                 && forall target :: target in targets ==>
                      FromConfirmed(l, l.voters, target) || FromConfirmed(l, l.learners, target)
  {
    var targets, others := Targets(l, l.voters) + Targets(l, l.learners), l.voters.Keys + l.learners.Keys - {l.id};
    AllTargets(l, targets, others);
    assert targets == {} <==> others == {};
  }
}
