/** What the rules of the core add up to over runs of one node: who commits, who wins, and on whose word. */
module CoreRuns {
  import opened Bytes
  import opened RaftTypes
  import opened RaftCore
  import opened CoreRules
  import opened NodeRuns

  // ---- Every commit has a reason ----

  /** A leader told this node that it has committed at least up to `index`. */
  predicate Tells(ev: Event, index: nat) {
    || (ev.Heartbeat? && ev.heartbeat.leaderCommitIndex >= index)
    || (ev.EntriesPersisted? && ev.leaderCommitIndex >= index)
  }

  /** The node is leader and commits its whole log on a majority, or on its own entry without other members. */
  predicate CommitsAsLeader(n: Node, ev: Event, index: nat) {
    && n.role == Leader
    && (ev.AppendEntriesResponse? || ev.LocalEntriesAppended?)
    && (ev.AppendEntriesResponse? ==> index == n.lastLogIndex && |Reached(n, ev.from)| > |n.voters| / 2)
    && (ev.LocalEntriesAppended? ==> index == ev.index && n.voters.Keys + n.learners.Keys <= {n.id})
  }

  predicate Justifies(n: Node, ev: Event, index: nat) {
    Tells(ev, index) || CommitsAsLeader(n, ev, index)
  }

  lemma ResponseCommitJustified(n: Node, ev: Event, t: Transition)
    requires t == Handle(n, ev) && ev.AppendEntriesResponse?
    ensures t.node.commitIndex == n.commitIndex || CommitsAsLeader(n, ev, t.node.commitIndex)
  {
    var r := ev.response;
    OtherAppendResponses(n, ev.operationId, ev.from, r, t);
    if n.role == Leader && r.term <= n.currentTerm && r.lastLogIndex == n.lastLogIndex > n.commitIndex
       && ev.from in n.voters && ev.from !in n.learners {
      CommitsIffMajority(n, ev.operationId, ev.from, r, t);
    }
  }

  lemma LocalCommitJustified(n: Node, ev: Event, t: Transition)
    requires t == Handle(n, ev) && ev.LocalEntriesAppended?
    ensures t.node.commitIndex == n.commitIndex || CommitsAsLeader(n, ev, t.node.commitIndex)
  {
    forall p | p in n.voters.Keys + n.learners.Keys && p != n.id
      ensures Targets(n, n.voters) + Targets(n, n.learners) != {}
    {
      var group := if p in n.voters then n.voters else n.learners;
      var target := ReplicationTarget(p, Min(group[p].matchIndex, n.lastLogIndex), n.lastLogTerm, n.id, n.commitIndex);
      assert target in Targets(n, group);
    }
  }

  lemma CommitStepJustified(n: Node, ev: Event, t: Transition)
    requires t == Handle(n, ev)
    ensures t.node.commitIndex == n.commitIndex || Justifies(n, ev, t.node.commitIndex)
  {
    match ev {
      case Heartbeat(h) => HeartbeatCommit(n, h, t);
      case EntriesPersisted(op, index, term, leaderCommit) => PersistedCommit(n, op, index, term, leaderCommit, t);
      case AppendEntriesResponse(_, _, _) => ResponseCommitJustified(n, ev, t);
      case LocalEntriesAppended(_, _, _) => LocalCommitJustified(n, ev, t);
      case _ => OthersCommitNothing(n, ev, t);
    }
  }

  lemma OthersCommitNothing(n: Node, ev: Event, t: Transition)
    requires t == Handle(n, ev)
    requires !ev.Heartbeat? && !ev.EntriesPersisted? && !ev.AppendEntriesResponse? && !ev.LocalEntriesAppended?
    ensures t.node.commitIndex == n.commitIndex
  {
  }

  /** Event j is the reason for this commit index. */
  ghost predicate JustifiedBy(n: Node, evs: seq<Event>, j: nat, index: nat)
    requires j < |evs|
  {
    Justifies(Run(n, evs[..j]), evs[j], index)
  }

  lemma JustifiedLater(n: Node, evs: seq<Event>, ev: Event, j: nat, index: nat)
    requires j < |evs| && JustifiedBy(n, evs, j, index)
    ensures JustifiedBy(n, evs + [ev], j, index)
  {
    assert (evs + [ev])[..j] == evs[..j];
  }

  /**
   * The commit index of a node is the one it started with, or some event of its run is the reason for it: a leader's
   * commit index at least as high, a majority of voters at its log end, or its own entry if it has no other members.
   */
  lemma {:induction false} EveryCommitIsJustified(n: Node, evs: seq<Event>) returns (j: nat)
    ensures Run(n, evs).commitIndex == n.commitIndex ||
            (j < |evs| && JustifiedBy(n, evs, j, Run(n, evs).commitIndex))
  {
    j := 0;
    if evs != [] {
      var before, ev := evs[..|evs| - 1], evs[|evs| - 1];
      assert evs == before + [ev];
      var m := Run(n, before);
      CommitStepJustified(m, ev, Handle(m, ev));
      if Handle(m, ev).node.commitIndex == m.commitIndex {
        j := EveryCommitIsJustified(n, before);
        if m.commitIndex != n.commitIndex {
          JustifiedLater(n, before, ev, j, m.commitIndex);
        }
      } else {
        j := |before|;
      }
    }
  }

  /** A node that never leads never commits beyond the largest leader commit index that it was told. */
  lemma FollowerCommitsWhatItIsTold(n: Node, evs: seq<Event>) returns (j: nat)
    requires forall k :: 0 <= k < |evs| ==> Run(n, evs[..k]).role != Leader
    ensures Run(n, evs).commitIndex == n.commitIndex || (j < |evs| && Tells(evs[j], Run(n, evs).commitIndex))
  {
    j := EveryCommitIsJustified(n, evs);
  }

  // ---- A majority of reports commits ----

  /** A response of a voter to the leader of this term that names the leader's last index. */
  predicate ReportsEnd(n: Node, ev: Event) {
    && ev.AppendEntriesResponse? && ev.from in n.voters && ev.from !in n.learners
    && ev.response.term <= n.currentTerm && ev.response.lastLogIndex == n.lastLogIndex
  }

  /** Who sent the responses to append requests and to vote requests. */
  function Senders(evs: seq<Event>): set<NodeId> {
    set k | 0 <= k < |evs| && (evs[k].AppendEntriesResponse? || evs[k].VoteReceived?) :: evs[k].from
  }

  lemma SendersGrow(evs: seq<Event>, ev: Event)
    requires ev.AppendEntriesResponse? || ev.VoteReceived?
    ensures Senders(evs + [ev]) == Senders(evs) + {ev.from}
  {
    var longer := evs + [ev];
    assert longer[|evs|] == ev;
    forall k | 0 <= k < |evs| && (evs[k].AppendEntriesResponse? || evs[k].VoteReceived?)
      ensures evs[k].from in Senders(longer)
    {
      assert longer[k] == evs[k];
    }
  }

  /** The voters at the leader's log end, by what it had recorded or by one of these reports. */
  function AtEnd(n: Node, reported: set<NodeId>): set<NodeId> {
    set p | p in n.voters && (p in reported || n.voters[p].matchIndex >= n.lastLogIndex)
  }

  /** The leader after these reports: it has recorded exactly them, and nothing but its commit index has moved. */
  ghost predicate AfterReports(n: Node, reported: set<NodeId>, m: Node) {
    && m == n.(voters := m.voters, commitIndex := m.commitIndex) && m.voters.Keys == n.voters.Keys
    && (forall p :: p in n.voters ==> (m.voters[p].matchIndex >= n.lastLogIndex <==> p in AtEnd(n, reported)))
    && (m.commitIndex == n.commitIndex || m.commitIndex == n.lastLogIndex)
    && (reported != {} ==> (m.commitIndex == n.lastLogIndex <==> |AtEnd(n, reported)| > |n.voters.Keys| / 2))
  }

  /** Recording one more report, with this commit index, gives the leader after one more report. */
  lemma RecordStep(n: Node, reported: set<NodeId>, m: Node, from: NodeId, m': Node)
    requires n.commitIndex < n.lastLogIndex && AfterReports(n, reported, m) && from in n.voters
    requires m' == m.(voters := m.voters[from := Progress(n.lastLogIndex + 1, n.lastLogIndex)],
                      commitIndex := m'.commitIndex)
    requires m'.commitIndex == n.commitIndex || m'.commitIndex == n.lastLogIndex
    requires m'.commitIndex == n.lastLogIndex <==> |AtEnd(n, reported + {from})| > |n.voters.Keys| / 2
    ensures AfterReports(n, reported + {from}, m')
  {
    assert AtEnd(n, reported + {from}) == AtEnd(n, reported) + {from};
    assert m'.voters.Keys == n.voters.Keys;
  }

  lemma ReachedIsAtEnd(n: Node, reported: set<NodeId>, m: Node, from: NodeId)
    requires AfterReports(n, reported, m) && from in n.voters
    ensures Reached(m, from) == AtEnd(n, reported + {from}) && |m.voters| == |n.voters.Keys|
    ensures |AtEnd(n, reported)| <= |AtEnd(n, reported + {from})|
  {
    assert |m.voters| == |m.voters.Keys|;
    SubsetSize(AtEnd(n, reported), AtEnd(n, reported + {from}));
  }

  lemma ReportStep(n: Node, reported: set<NodeId>, m: Node, ev: Event, t: Transition)
    requires n.role == Leader && n.commitIndex < n.lastLogIndex && ReportsEnd(n, ev)
    requires AfterReports(n, reported, m) && t == Handle(m, ev) && (reported == {} ==> m == n)
    ensures AfterReports(n, reported + {ev.from}, t.node)
  {
    ReachedIsAtEnd(n, reported, m, ev.from);
    if m.commitIndex < m.lastLogIndex {
      CommitsIffMajority(m, ev.operationId, ev.from, ev.response, t);
    } else {
      OtherAppendResponses(m, ev.operationId, ev.from, ev.response, t);
    }
    RecordStep(n, reported, m, ev.from, t.node);
  }

  lemma {:induction false} ReportsAddUp(n: Node, evs: seq<Event>)
    requires n.role == Leader && n.commitIndex < n.lastLogIndex
    requires forall k :: 0 <= k < |evs| ==> ReportsEnd(n, evs[k])
    ensures AfterReports(n, Senders(evs), Run(n, evs))
  {
    if evs == [] {
      assert Senders(evs) == {};
    } else {
      var before, ev := evs[..|evs| - 1], evs[|evs| - 1];
      assert evs == before + [ev];
      ReportsAddUp(n, before);
      SendersGrow(before, ev);
      assert before != [] ==> before[0].from in Senders(before);
      ReportStep(n, Senders(before), Run(n, before), ev, Handle(Run(n, before), ev));
    }
  }

  /**
   * A leader that hears from voters at its log end, in any order and number, has committed its whole log exactly if
   * they and those it already knew there are more than half of the voters: a minority that is down does not matter.
   */
  lemma MajorityOfReportsCommits(n: Node, evs: seq<Event>)
    requires n.role == Leader && n.commitIndex < n.lastLogIndex && evs != []
    requires forall k :: 0 <= k < |evs| ==> ReportsEnd(n, evs[k])
    ensures Run(n, evs).role == Leader
    ensures Run(n, evs).commitIndex == n.lastLogIndex <==>
            |AtEnd(n, Senders(evs))| > |n.voters| / 2
  {
    ReportsAddUp(n, evs);
    assert evs[0].from in Senders(evs);
    assert |n.voters| == |n.voters.Keys|;
  }

  // ---- A majority of votes wins ----

  predicate VotesFor(n: Node, ev: Event) {
    ev.VoteReceived? && ev.from in n.voters && ev.vote == VoteResponse(n.currentTerm, true)
  }

  /** The candidate after these votes: it has counted exactly them, and leads exactly if they are a majority. */
  ghost predicate AfterVotes(n: Node, votes: set<NodeId>, m: Node) {
    if |n.grantedVotes + votes| > |n.voters| / 2 then m.role == Leader && m.currentTerm == n.currentTerm
    else m == n.(grantedVotes := n.grantedVotes + votes)
  }

  lemma VoteStep(n: Node, votes: set<NodeId>, m: Node, ev: Event, t: Transition)
    requires n.role == Candidate && VotesFor(n, ev) && AfterVotes(n, votes, m) && t == Handle(m, ev)
    ensures AfterVotes(n, votes + {ev.from}, t.node)
  {
    var more := n.grantedVotes + (votes + {ev.from});
    assert more == n.grantedVotes + votes + {ev.from};
    SubsetSize(n.grantedVotes + votes, more);
    VoteCounting(m, ev.from, ev.vote, t);
    if m.role != Leader {
      WinsIff(m, ev.from, ev.vote, t);
      assert ev.from in m.grantedVotes ==> more == m.grantedVotes;
    }
  }

  lemma {:induction false} VotesAddUp(n: Node, evs: seq<Event>)
    requires n.role == Candidate && |n.grantedVotes| <= |n.voters| / 2
    requires forall k :: 0 <= k < |evs| ==> VotesFor(n, evs[k])
    ensures AfterVotes(n, Senders(evs), Run(n, evs))
  {
    if evs == [] {
      assert Senders(evs) == {} && n.grantedVotes + {} == n.grantedVotes;
    } else {
      var before, ev := evs[..|evs| - 1], evs[|evs| - 1];
      assert evs == before + [ev];
      VotesAddUp(n, before);
      SendersGrow(before, ev);
      VoteStep(n, Senders(before), Run(n, before), ev, Handle(Run(n, before), ev));
    }
  }

  /** A candidate that hears granted votes of its term, in any order, leads exactly if they make a majority. */
  lemma MajorityOfVotesWins(n: Node, evs: seq<Event>)
    requires n.role == Candidate && |n.grantedVotes| <= |n.voters| / 2
    requires forall k :: 0 <= k < |evs| ==> VotesFor(n, evs[k])
    ensures Run(n, evs).currentTerm == n.currentTerm
    ensures Run(n, evs).role == Leader <==> |n.grantedVotes + Senders(evs)| > |n.voters| / 2
  {
    VotesAddUp(n, evs);
  }
}
