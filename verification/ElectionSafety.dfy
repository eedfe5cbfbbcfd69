/** Safety of elections over whole cluster runs: unique winners, unique leaders, and the election restriction. */
module ElectionSafety {
  import opened RaftTypes
  import opened RaftCore
  import opened CoreRules
  import opened NodeRuns
  import opened RaftCluster
  import opened ElectionInvariant

  // ---- Anchors kept by one action ----

  lemma MemoryFollows(n: Node, ev: Event)
    ensures AnchorFollows(Handle(n, ev), n.Hard(), Handle(n, ev).node.Hard())
  {
    var t := Handle(n, ev);
    FactsOfHandle(n, ev);
    forall b | b in Ballots(t.node, t.outcome)
      ensures t.node.Hard() == HardState(b.term, Some(b.candidate))
    {
      assert BallotFact(n, ev, t, b);
    }
  }

  lemma MemoryFollowsUnsaved(n: Node, ev: Event, t: Transition)
    requires t == Unsaved(Handle(n, ev))
    ensures AnchorFollows(t, n.Hard(), t.node.Hard())
  {
    HandleAdvances(n, ev);
  }

  predicate StartsVoteOrAppend(ev: Event) {
    ev.ElectionTimeout? || ev.RequestVote? || ev.AppendEntries?
  }

  /** Every other event keeps term and vote or moves to a newer term without a vote, and saves nothing. */
  lemma OthersKeepOrClearVote(n: Node, ev: Event, t: Transition, saved: HardState)
    requires !StartsVoteOrAppend(ev) && t == Handle(n, ev)
    ensures SavedAfter(saved, t.outcome) == saved
    ensures t.node.Hard() == n.Hard() || (t.node.currentTerm > n.currentTerm && t.node.votedFor == None)
  {
  }

  lemma AppendEntriesRaises(n: Node, ev: Event, t: Transition, saved: HardState)
    requires ev.AppendEntries? && t == Handle(n, ev) && Covers(saved, n)
    ensures SavedAfter(saved, t.outcome) == saved
    ensures Covers(saved, t.node) <==> !RaisesTermHoldingVote(n, ev)
  {
  }

  lemma VotingIsSaved(n: Node, ev: Event, t: Transition, saved: HardState)
    requires (ev.ElectionTimeout? || ev.RequestVote?) && t == Handle(n, ev) && Covers(saved, n)
    ensures Covers(SavedAfter(saved, t.outcome), t.node)
  {
  }

  /** A vote that is on disk stays on disk, in step with memory, exactly if no held vote is carried to a newer term. */
  lemma VoteStaysSavedIff(n: Node, saved: HardState, ev: Event)
    requires Covers(saved, n)
    ensures Covers(SavedAfter(saved, Handle(n, ev).outcome), Handle(n, ev).node) <==> !RaisesTermHoldingVote(n, ev)
  {
    var t := Handle(n, ev);
    if ev.AppendEntries? {
      AppendEntriesRaises(n, ev, t, saved);
    } else if StartsVoteOrAppend(ev) {
      VotingIsSaved(n, ev, t, saved);
    } else {
      OthersKeepOrClearVote(n, ev, t, saved);
    }
  }

  /** After a failed save the disk still covers the node exactly if the node holds no vote. */
  lemma FailedSaveCoversIff(n: Node, saved: HardState, ev: Event)
    requires Covers(saved, n) && AsksToSave(Handle(n, ev).outcome)
    ensures Covers(saved, Handle(n, ev).node) <==> !RecordsVote(n, ev)
  {
    OnlyVotesAreSaved(n, ev);
    RecordsVoteIsGuard(n, ev);
  }

  /** The guard says what the handler does: after an event that asks to save, the node holds a vote. */
  lemma RecordsVoteIsGuard(n: Node, ev: Event)
    requires AsksToSave(Handle(n, ev).outcome)
    ensures RecordsVote(n, ev) <==> Handle(n, ev).node.votedFor != None
  {
    OnlyVotesAreSaved(n, ev);
  }

  lemma SavedExtends(n: Node, saved: HardState, ev: Event)
    requires Covers(saved, n)
    ensures Extends(saved, SavedAfter(saved, Handle(n, ev).outcome))
  {
  }

  lemma SentVotesAreSaved(n: Node, saved: HardState, ev: Event, b: Ballot)
    requires Covers(saved, n) && !RaisesTermHoldingVote(n, ev)
    requires b in Ballots(Handle(n, ev).node, Handle(n, ev).outcome)
    ensures SavedAfter(saved, Handle(n, ev).outcome) == HardState(b.term, Some(b.candidate))
  {
    VoteStaysSavedIff(n, saved, ev);
    MemoryFollows(n, ev);
  }

  lemma SavedFollows(n: Node, saved: HardState, ev: Event)
    requires Covers(saved, n) && !RaisesTermHoldingVote(n, ev)
    ensures AnchorFollows(Handle(n, ev), saved, SavedAfter(saved, Handle(n, ev).outcome))
  {
    VoteStaysSavedIff(n, saved, ev);
    SavedExtends(n, saved, ev);
    forall b | b in Ballots(Handle(n, ev).node, Handle(n, ev).outcome)
      ensures SavedAfter(saved, Handle(n, ev).outcome) == HardState(b.term, Some(b.candidate))
    {
      SentVotesAreSaved(n, saved, ev, b);
    }
  }

  lemma StepKeepsMemoryInv(c: Cluster, voters: set<NodeId>, id: NodeId, ev: Event, t: Transition)
    requires Inv(c, voters, Memory(c)) && id in voters && Acts(c, id) && Deliverable(c, id, ev)
    requires StepFacts(c.nodes[id], ev, t) && AnchorFollows(t, c.nodes[id].Hard(), t.node.Hard())
    ensures Inv(Applied(c, id, t), voters, Memory(Applied(c, id, t)))
  {
    StepKeepsInv(c, voters, Memory(c), id, ev, t, t.node.Hard());
    assert Memory(Applied(c, id, t)) == Memory(c)[id := t.node.Hard()];
  }

  /** Without a crash the hard states in memory are what votes commit to, whatever is saved. */
  lemma LiveStepKeepsMemoryInv(c: Cluster, voters: set<NodeId>, a: Action)
    requires Inv(c, voters, Memory(c)) && Enabled(c, a) && !a.Crash?
    ensures Inv(Next(c, a), voters, Memory(Next(c, a)))
  {
    var n := c.nodes[a.id];
    var t := Handle(n, a.ev);
    assert NodeOk(n, a.id, voters, Memory(c)[a.id]);
    if a.Deliver? {
      FactsOfHandle(n, a.ev);
      MemoryFollows(n, a.ev);
      StepKeepsMemoryInv(c, voters, a.id, a.ev, t);
    } else {
      FactsOfUnsaved(n, a.ev, Unsaved(t));
      MemoryFollowsUnsaved(n, a.ev, Unsaved(t));
      StepKeepsMemoryInv(c, voters, a.id, a.ev, Unsaved(t));
    }
  }

  lemma DeliverKeepsSavedInv(c: Cluster, voters: set<NodeId>, a: Action)
    requires Inv(c, voters, c.saved) && Enabled(c, a) && a.Deliver?
    requires !RaisesTermHoldingVote(c.nodes[a.id], a.ev)
    ensures Inv(Next(c, a), voters, Next(c, a).saved)
  {
    var n := c.nodes[a.id];
    var t := Handle(n, a.ev);
    assert NodeOk(n, a.id, voters, c.saved[a.id]);
    FactsOfHandle(n, a.ev);
    SavedFollows(n, c.saved[a.id], a.ev);
    StepKeepsInv(c, voters, c.saved, a.id, a.ev, t, SavedAfter(c.saved[a.id], t.outcome));
  }

  lemma FailedSaveKeepsSavedInv(c: Cluster, voters: set<NodeId>, a: Action)
    requires Inv(c, voters, c.saved) && Enabled(c, a) && a.FailedSave?
    requires !RecordsVote(c.nodes[a.id], a.ev)
    ensures Inv(Next(c, a), voters, Next(c, a).saved)
  {
    var n, h := c.nodes[a.id], c.saved[a.id];
    var t := Unsaved(Handle(n, a.ev));
    assert NodeOk(n, a.id, voters, h);
    FactsOfUnsaved(n, a.ev, t);
    FailedSaveCoversIff(n, h, a.ev);
    StepKeepsInv(c, voters, c.saved, a.id, a.ev, t, h);
  }

  /** Node id starts again from the saved state h. */
  lemma RestartKeepsNodes(c: Cluster, c': Cluster, voters: set<NodeId>, id: NodeId, n': Node, h: HardState)
    requires NodesOk(c, voters, c.saved) && id in voters && NodeOk(n', id, voters, h)
    requires c'.nodes == c.nodes[id := n'] && c'.saved == c.saved[id := h]
    ensures NodesOk(c', voters, c'.saved)
  {
    assert c.nodes.Keys + {id} == voters && c.saved.Keys + {id} == voters;
    forall x | x in voters
      ensures NodeOk(c'.nodes[x], x, voters, c'.saved[x])
    {
      if x != id {
        assert NodeOk(c.nodes[x], x, voters, c.saved[x]);
        assert c'.nodes[x] == c.nodes[x] && c'.saved[x] == c.saved[x];
      }
    }
  }

  lemma RestartKeepsCommitments(c: Cluster, c': Cluster, id: NodeId)
    requires RequestsCommitted(c, c.saved) && BallotsCommitted(c, c.saved)
    requires id in c.saved && id in c'.saved && Extends(c.saved[id], c'.saved[id])
    requires c'.saved == c.saved[id := c'.saved[id]] && c'.sent == c.sent && c'.ballots == c.ballots
    ensures RequestsCommitted(c', c'.saved) && BallotsCommitted(c', c'.saved)
  {
    forall m | m in c'.sent
      ensures RequestCommitted(m, c'.saved)
    {
      assert RequestCommitted(m, c.saved);
    }
    forall b | b in c'.ballots
      ensures BallotCommitted(b, c'.saved)
    {
      assert BallotCommitted(b, c.saved);
    }
  }

  lemma RestartKeepsCandidates(c: Cluster, c': Cluster, voters: set<NodeId>, id: NodeId)
    requires CandidatesOk(c, voters) && id in c'.nodes && c'.nodes[id].role == Follower
    requires c'.nodes == c.nodes[id := c'.nodes[id]] && c'.sent == c.sent && c'.ballots == c.ballots
    ensures CandidatesOk(c', voters)
  {
    forall x | x in c'.nodes
      ensures CandidateOk(c', voters, c'.nodes[x])
    {
      if x != id {
        assert CandidateOk(c, voters, c.nodes[x]);
        assert Supporters(c, voters, c.nodes[x].id, c.nodes[x].currentTerm)
            == Supporters(c', voters, c.nodes[x].id, c.nodes[x].currentTerm);
      }
    }
  }

  lemma RestartKeepsInv(c: Cluster, c': Cluster, voters: set<NodeId>, id: NodeId, n': Node, h: HardState)
    requires Inv(c, voters, c.saved) && id in voters && Extends(c.saved[id], h)
    requires NodeOk(n', id, voters, h) && n'.role == Follower
    requires c' == c.(nodes := c.nodes[id := n'], saved := c.saved[id := h])
    ensures Inv(c', voters, c'.saved)
  {
    RestartKeepsNodes(c, c', voters, id, n', h);
    RestartKeepsCommitments(c, c', id);
    forall m | m in c'.sent
      ensures ResponseOk(c', m)
    {
      assert ResponseOk(c, m);
    }
    forall b | b in c'.ballots
      ensures BallotRequested(c', b)
    {
      assert BallotRequested(c, b);
    }
    RestartKeepsCandidates(c, c', voters, id);
  }

  lemma CrashKeepsSavedInv(c: Cluster, voters: set<NodeId>, a: Action)
    requires Inv(c, voters, c.saved) && Enabled(c, a) && a.Crash?
    ensures Inv(Next(c, a), voters, Next(c, a).saved)
  {
    var n, c' := c.nodes[a.id], Next(c, a);
    assert NodeOk(n, a.id, voters, c.saved[a.id]);
    if a.inFlight != None {
      SavedExtends(n, c.saved[a.id], a.inFlight.value);
    }
    var n' := c'.nodes[a.id];
    assert n'.voters.Keys == voters;
    RestartKeepsInv(c, c', voters, a.id, n', c'.saved[a.id]);
  }

  // ---- Runs ----

  ghost predicate CrashFree(acts: seq<Action>) {
    forall k :: 0 <= k < |acts| ==> !acts[k].Crash?
  }

  /** A vote that the disk does not cover: an older one carried to a newer term, or one whose save failed. */
  predicate VoteSlips(c: Cluster, a: Action) {
    && a.id in c.nodes
    && match a
       case Deliver(id, ev) => RaisesTermHoldingVote(c.nodes[id], ev)
       case FailedSave(id, ev) => RecordsVote(c.nodes[id], ev)
       case Crash(_, _, _) => false
  }

  predicate LeaderRaised(c: Cluster, a: Action) {
    a.Deliver? && a.id in c.nodes && RaisesTermOfLeader(c.nodes[a.id], a.ev)
  }

  ghost predicate NoVoteSlips(states: seq<Cluster>, acts: seq<Action>)
    requires ValidRun(states, acts)
  {
    forall k {:trigger VoteSlips(states[k], acts[k])} :: 0 <= k < |acts| ==> !VoteSlips(states[k], acts[k])
  }

  ghost predicate NeverRaisesLeader(states: seq<Cluster>, acts: seq<Action>)
    requires ValidRun(states, acts)
  {
    forall k {:trigger LeaderRaised(states[k], acts[k])} :: 0 <= k < |acts| ==> !LeaderRaised(states[k], acts[k])
  }

  /** The runs covered: no crash at all, or crashes but no vote that the disk does not cover. */
  ghost predicate VotesHold(states: seq<Cluster>, acts: seq<Action>)
    requires ValidRun(states, acts)
  {
    CrashFree(acts) || NoVoteSlips(states, acts)
  }

  lemma InitNodes(c: Cluster, voters: set<NodeId>)
    requires Init(c, voters)
    ensures NodesOk(c, voters, c.saved) && CandidatesOk(c, voters)
  {
    forall id | id in voters
      ensures NodeOk(c.nodes[id], id, voters, c.saved[id]) && CandidateOk(c, voters, c.nodes[id])
    {
      assert Started(c.nodes[id], id, voters, c.saved[id]);
    }
  }

  lemma InitMemory(c: Cluster, voters: set<NodeId>)
    requires Init(c, voters)
    ensures Memory(c) == c.saved
  {
    forall id | id in voters
      ensures c.nodes[id].Hard() == c.saved[id]
    {
      assert Started(c.nodes[id], id, voters, c.saved[id]);
    }
  }

  lemma InitHasInv(c: Cluster, voters: set<NodeId>)
    requires Init(c, voters)
    ensures Inv(c, voters, c.saved) && Memory(c) == c.saved
  {
    InitNodes(c, voters);
    InitMemory(c, voters);
  }

  lemma {:induction false} CrashFreeInv(states: seq<Cluster>, voters: set<NodeId>, acts: seq<Action>, k: nat)
    requires ValidRun(states, acts) && Init(states[0], voters) && k <= |acts| && CrashFree(acts)
    ensures Inv(states[k], voters, Memory(states[k]))
  {
    if k == 0 {
      InitHasInv(states[0], voters);
    } else {
      CrashFreeInv(states, voters, acts, k - 1);
      StepOf(states, acts, k - 1);
      LiveStepKeepsMemoryInv(states[k - 1], voters, acts[k - 1]);
    }
  }

  /** One action keeps the invariant over the saved states exactly if it lets no vote slip. */
  lemma SavedInvKeptIff(c: Cluster, voters: set<NodeId>, a: Action, c': Cluster)
    requires Inv(c, voters, c.saved) && Steps(c, a, c')
    ensures Inv(c', voters, c'.saved) <==> !VoteSlips(c, a)
  {
    assert NodeOk(c.nodes[a.id], a.id, voters, c.saved[a.id]);
    if VoteSlips(c, a) {
      SlippedVoteIsUncovered(c, voters, a, c');
    } else if a.Deliver? {
      DeliverKeepsSavedInv(c, voters, a);
    } else if a.FailedSave? {
      FailedSaveKeepsSavedInv(c, voters, a);
    } else {
      CrashKeepsSavedInv(c, voters, a);
    }
  }

  lemma SlippedVoteIsUncovered(c: Cluster, voters: set<NodeId>, a: Action, c': Cluster)
    requires Inv(c, voters, c.saved) && Steps(c, a, c') && VoteSlips(c, a)
    ensures !Inv(c', voters, c'.saved)
  {
    assert NodeOk(c.nodes[a.id], a.id, voters, c.saved[a.id]);
    if a.Deliver? {
      VoteStaysSavedIff(c.nodes[a.id], c.saved[a.id], a.ev);
    } else {
      FailedSaveCoversIff(c.nodes[a.id], c.saved[a.id], a.ev);
    }
    assert !NodeOk(c'.nodes[a.id], a.id, voters, c'.saved[a.id]);
  }

  lemma {:induction false} DurableInv(states: seq<Cluster>, voters: set<NodeId>, acts: seq<Action>, k: nat)
    requires ValidRun(states, acts) && Init(states[0], voters) && k <= |acts| && NoVoteSlips(states, acts)
    ensures Inv(states[k], voters, states[k].saved)
  {
    if k == 0 {
      InitHasInv(states[0], voters);
    } else {
      DurableInv(states, voters, acts, k - 1);
      StepOf(states, acts, k - 1);
      assert !VoteSlips(states[k - 1], acts[k - 1]);
      SavedInvKeptIff(states[k - 1], voters, acts[k - 1], states[k]);
    }
  }

  /**
   * In every run, crashes and failed saves included: the saved hard states account for all votes at every moment
   * if and only if no action ever lets a vote slip.
   */
  lemma DurableInvIff(states: seq<Cluster>, voters: set<NodeId>, acts: seq<Action>)
    requires ValidRun(states, acts) && Init(states[0], voters)
    ensures NoVoteSlips(states, acts) <==>
            forall k {:trigger Inv(states[k], voters, states[k].saved)} ::
              0 <= k <= |acts| ==> Inv(states[k], voters, states[k].saved)
  {
    if NoVoteSlips(states, acts) {
      forall k | 0 <= k <= |acts|
        ensures Inv(states[k], voters, states[k].saved)
      {
        DurableInv(states, voters, acts, k);
      }
    }
    if forall k {:trigger Inv(states[k], voters, states[k].saved)} ::
         0 <= k <= |acts| ==> Inv(states[k], voters, states[k].saved) {
      forall k | 0 <= k < |acts|
        ensures !VoteSlips(states[k], acts[k])
      {
        StepOf(states, acts, k);
        assert Inv(states[k], voters, states[k].saved) && Inv(states[k + 1], voters, states[k + 1].saved);
        SavedInvKeptIff(states[k], voters, acts[k], states[k + 1]);
      }
    }
  }

  lemma InvAlways(states: seq<Cluster>, voters: set<NodeId>, acts: seq<Action>, k: nat) returns (anchors: Anchors)
    requires ValidRun(states, acts) && Init(states[0], voters) && k <= |acts| && VotesHold(states, acts)
    ensures Inv(states[k], voters, anchors)
  {
    if CrashFree(acts) {
      CrashFreeInv(states, voters, acts, k);
      anchors := Memory(states[k]);
    } else {
      DurableInv(states, voters, acts, k);
      anchors := states[k].saved;
    }
  }

  lemma {:induction false} RunGrows(states: seq<Cluster>, acts: seq<Action>, i: nat, j: nat)
    requires ValidRun(states, acts) && i <= j <= |acts|
    ensures Grows(states[i], states[j])
    decreases j
  {
    if i < j {
      RunGrows(states, acts, i, j - 1);
      StepOf(states, acts, j - 1);
    }
  }

  // ---- Winners ----

  /** Two majorities of one voter set meet, and the voter they share voted once. */
  lemma OneElectedPerTerm(c: Cluster, voters: set<NodeId>, x: NodeId, y: NodeId, term: nat)
    requires BallotsUnique(c) && Elected(c, voters, x, term) && Elected(c, voters, y, term)
    ensures x == y
  {
    var a, b := Supporters(c, voters, x, term), Supporters(c, voters, y, term);
    SubsetSize(a + b, voters);
    assert |a + b| == |a| + |b| - |a * b|;
    var v :| v in a * b;
    var p :| p in c.ballots && p.voter == v && p.term == term && p.candidate == x;
    var q :| q in c.ballots && q.voter == v && q.term == term && q.candidate == y;
    assert SamePoll(p, q);
  }

  lemma LeaderAfterVote(c: Cluster, voters: set<NodeId>, anchors: Anchors, id: NodeId, ev: Event, t: Transition)
    requires Inv(c, voters, anchors) && id in voters && Deliverable(c, id, ev)
    requires CountsVote(c.nodes[id], ev, t) && |t.node.grantedVotes| > |c.nodes[id].voters.Keys| / 2
    ensures t.node.grantedVotes <= Supporters(c, voters, id, t.node.currentTerm)
    ensures Elected(c, voters, id, t.node.currentTerm)
  {
    assert NodeOk(c.nodes[id], id, voters, anchors[id]);
    assert CandidateOk(c, voters, c.nodes[id]);
    CountedVotesAreReal(c, voters, id, ev, t);
    SubsetSize(t.node.grantedVotes, Supporters(c, voters, id, t.node.currentTerm));
  }

  lemma WinnerIsElected(c: Cluster, voters: set<NodeId>, anchors: Anchors, a: Action, id: NodeId)
    requires Inv(c, voters, anchors) && Enabled(c, a) && Wins(c, Next(c, a), id)
    ensures a.Deliver? && a.id == id && id in voters
    ensures var n' := Next(c, a).nodes[id];
            && n'.currentTerm == c.nodes[id].currentTerm
            && |n'.grantedVotes| > |voters| / 2
            && n'.grantedVotes <= Supporters(c, voters, id, n'.currentTerm)
            && Elected(c, voters, id, n'.currentTerm)
  {
    assert a.id == id && !a.Crash?;
    var n := c.nodes[id];
    if a.FailedSave? {
      OnlyVotesAreSaved(n, a.ev);
    }
    assert a.Deliver?;
    FactsOfHandle(n, a.ev);
    assert NodeOk(n, id, voters, anchors[id]);
    LeaderAfterVote(c, voters, anchors, id, a.ev, Handle(n, a.ev));
  }

  /** `x` wins an election of `term` with action k of the run. */
  ghost predicate WinsAt(states: seq<Cluster>, acts: seq<Action>, k: nat, x: NodeId, term: nat)
    requires ValidRun(states, acts)
  {
    && k < |acts|
    && Wins(states[k], states[k + 1], x)
    && states[k + 1].nodes[x].currentTerm == term
  }

  /** A win leaves a majority of real ballots behind, at that moment and ever after. */
  lemma WinnerStaysElected(states: seq<Cluster>, voters: set<NodeId>, acts: seq<Action>, k: nat, x: NodeId, term: nat)
    requires ValidRun(states, acts) && Init(states[0], voters) && VotesHold(states, acts)
    requires WinsAt(states, acts, k, x, term)
    ensures Elected(states[|acts|], voters, x, term)
  {
    var anchors := InvAlways(states, voters, acts, k);
    StepOf(states, acts, k);
    WinnerIsElected(states[k], voters, anchors, acts[k], x);
    RunGrows(states, acts, k, |acts|);
    SupportersGrow(states[k], states[|acts|], voters, x, term);
  }

  /** No two nodes ever win an election in the same term: whoever wins it at any step is x. */
  lemma AtMostOneWinnerPerTerm(states: seq<Cluster>, voters: set<NodeId>, acts: seq<Action>, i: nat, x: NodeId,
                               term: nat)
    requires ValidRun(states, acts) && Init(states[0], voters) && VotesHold(states, acts)
    requires WinsAt(states, acts, i, x, term)
    ensures forall j: nat, y :: WinsAt(states, acts, j, y, term) ==> y == x
  {
    WinnerStaysElected(states, voters, acts, i, x, term);
    var anchors := InvAlways(states, voters, acts, |acts|);
    forall j: nat, y | WinsAt(states, acts, j, y, term)
      ensures y == x
    {
      WinnerStaysElected(states, voters, acts, j, y, term);
      OneElectedPerTerm(states[|acts|], voters, x, y, term);
    }
  }

  // ---- Leaders ----

  /** A leader stays leader in a changed term exactly if the mismatch-reject branch raised its term. */
  lemma LeaderChangesTermIff(n: Node, ev: Event)
    requires n.role == Leader
    ensures (Handle(n, ev).node.role == Leader && Handle(n, ev).node.currentTerm != n.currentTerm)
            <==> RaisesTermOfLeader(n, ev)
  {
  }

  ghost predicate LeaderOk(c: Cluster, voters: set<NodeId>, n: Node) {
    n.role == Leader ==> Elected(c, voters, n.id, n.currentTerm)
  }

  ghost predicate HeartbeatOk(c: Cluster, voters: set<NodeId>, m: Message) {
    m.HeartbeatMessage? ==> Elected(c, voters, m.heartbeat.leaderId, m.heartbeat.term)
  }

  ghost predicate LeadersOk(c: Cluster, voters: set<NodeId>) {
    && (forall id {:trigger LeaderOk(c, voters, c.nodes[id])} :: id in c.nodes ==> LeaderOk(c, voters, c.nodes[id]))
    && (forall m {:trigger HeartbeatOk(c, voters, m)} :: m in c.sent ==> HeartbeatOk(c, voters, m))
  }

  lemma MoverLeaderKept(c: Cluster, voters: set<NodeId>, anchors: Anchors, id: NodeId, ev: Event, t: Transition)
    requires Inv(c, voters, anchors) && id in voters && Deliverable(c, id, ev)
    requires StepFacts(c.nodes[id], ev, t) && !RaisesTermOfLeader(c.nodes[id], ev)
    requires LeaderOk(c, voters, c.nodes[id])
    ensures t.node.role == Leader ==> Elected(c, voters, id, t.node.currentTerm)
  {
    assert NodeOk(c.nodes[id], id, voters, anchors[id]);
    if CountsVote(c.nodes[id], ev, t) && |t.node.grantedVotes| > |c.nodes[id].voters.Keys| / 2 {
      LeaderAfterVote(c, voters, anchors, id, ev, t);
    }
  }

  lemma LeadersKeptByStep(c: Cluster, voters: set<NodeId>, anchors: Anchors, id: NodeId, ev: Event, t: Transition)
    requires Inv(c, voters, anchors) && id in voters && Acts(c, id) && Deliverable(c, id, ev)
    requires StepFacts(c.nodes[id], ev, t) && !RaisesTermOfLeader(c.nodes[id], ev)
    requires LeadersOk(c, voters)
    ensures LeadersOk(Applied(c, id, t), voters)
  {
    var c' := Applied(c, id, t);
    assert LeaderOk(c, voters, c.nodes[id]);
    MoverLeaderKept(c, voters, anchors, id, ev, t);
    SupportersGrow(c, c', voters, id, t.node.currentTerm);
    forall x | x in c'.nodes
      ensures LeaderOk(c', voters, c'.nodes[x])
    {
      assert LeaderOk(c, voters, c.nodes[x]);
      SupportersGrow(c, c', voters, c.nodes[x].id, c.nodes[x].currentTerm);
    }
    forall m | m in c'.sent
      ensures HeartbeatOk(c', voters, m)
    {
      if m in c.sent {
        assert HeartbeatOk(c, voters, m);
        if m.HeartbeatMessage? {
          SupportersGrow(c, c', voters, m.heartbeat.leaderId, m.heartbeat.term);
        }
      } else {
        assert MessageFact(c.nodes[id], ev, t, m);
      }
    }
  }

  lemma LeadersKeptByCrash(c: Cluster, voters: set<NodeId>, a: Action)
    requires LeadersOk(c, voters) && Enabled(c, a) && a.Crash?
    ensures LeadersOk(Next(c, a), voters)
  {
    var c' := Next(c, a);
    forall x | x in c'.nodes
      ensures LeaderOk(c', voters, c'.nodes[x])
    {
      assert LeaderOk(c, voters, c.nodes[x]);
      SupportersGrow(c, c', voters, c.nodes[x].id, c.nodes[x].currentTerm);
    }
    forall m | m in c'.sent
      ensures HeartbeatOk(c', voters, m)
    {
      assert HeartbeatOk(c, voters, m);
      if m.HeartbeatMessage? {
        SupportersGrow(c, c', voters, m.heartbeat.leaderId, m.heartbeat.term);
      }
    }
  }

  lemma LeadersKept(c: Cluster, voters: set<NodeId>, anchors: Anchors, a: Action)
    requires Inv(c, voters, anchors) && Enabled(c, a) && !LeaderRaised(c, a)
    requires LeadersOk(c, voters)
    ensures LeadersOk(Next(c, a), voters)
  {
    var n := c.nodes[a.id];
    assert NodeOk(n, a.id, voters, anchors[a.id]);
    match a {
      case Deliver(id, ev) =>
        FactsOfHandle(n, ev);
        LeadersKeptByStep(c, voters, anchors, id, ev, Handle(n, ev));
      case FailedSave(id, ev) =>
        OnlyVotesAreSaved(n, ev);
        FactsOfUnsaved(n, ev, Unsaved(Handle(n, ev)));
        LeadersKeptByStep(c, voters, anchors, id, ev, Unsaved(Handle(n, ev)));
      case Crash(_, _, _) =>
        LeadersKeptByCrash(c, voters, a);
    }
  }

  /** A leader whose term is raised has no majority in the new term: it never asked for votes there. */
  lemma RaisedLeaderIsUnelected(c: Cluster, voters: set<NodeId>, anchors: Anchors, a: Action, c': Cluster)
    requires Inv(c, voters, anchors) && Steps(c, a, c') && LeaderRaised(c, a)
    ensures !LeadersOk(c', voters)
  {
    var n, n' := c.nodes[a.id], c'.nodes[a.id];
    assert NodeOk(n, a.id, voters, anchors[a.id]);
    NoRequestAhead(c, anchors, a.id, n'.currentTerm);
    assert c'.ballots == c.ballots;
    forall v | v in voters
      ensures !HasBallot(c', v, n'.currentTerm, a.id)
    {
      UnrequestedHasNoBallot(c, v, a.id, n'.currentTerm);
    }
    assert Supporters(c', voters, a.id, n'.currentTerm) == {};
    assert !LeaderOk(c', voters, n');
  }

  lemma UnrequestedHasNoBallot(c: Cluster, v: NodeId, candidate: NodeId, term: nat)
    requires BallotsRequested(c) && !HasRequest(c, candidate, term)
    ensures !HasBallot(c, v, term, candidate)
  {
    forall b | b in c.ballots
      ensures !(b.voter == v && b.term == term && b.candidate == candidate)
    {
      assert BallotRequested(c, b);
    }
  }

  lemma NoLeaderAtStart(c: Cluster, voters: set<NodeId>)
    requires Init(c, voters)
    ensures LeadersOk(c, voters)
  {
    forall id | id in c.nodes
      ensures LeaderOk(c, voters, c.nodes[id])
    {
      assert Started(c.nodes[id], id, voters, c.saved[id]);
    }
  }

  lemma {:induction false} LeadersAlwaysElected(states: seq<Cluster>, voters: set<NodeId>, acts: seq<Action>, k: nat)
    requires ValidRun(states, acts) && Init(states[0], voters) && k <= |acts| && VotesHold(states, acts)
    requires NeverRaisesLeader(states, acts)
    ensures LeadersOk(states[k], voters)
  {
    if k == 0 {
      NoLeaderAtStart(states[0], voters);
    } else {
      LeadersAlwaysElected(states, voters, acts, k - 1);
      StepOf(states, acts, k - 1);
      var anchors := InvAlways(states, voters, acts, k - 1);
      assert !LeaderRaised(states[k - 1], acts[k - 1]);
      LeadersKept(states[k - 1], voters, anchors, acts[k - 1]);
    }
  }

  /**
   * In every covered run: every leader was elected in its own term at every moment, and every heartbeat sender in the
   * term it names, if and only if the mismatch-reject branch never raises the term of a leader.
   */
  lemma LeadersElectedIff(states: seq<Cluster>, voters: set<NodeId>, acts: seq<Action>)
    requires ValidRun(states, acts) && Init(states[0], voters) && VotesHold(states, acts)
    ensures NeverRaisesLeader(states, acts) <==>
            forall k {:trigger LeadersOk(states[k], voters)} :: 0 <= k <= |acts| ==> LeadersOk(states[k], voters)
  {
    if NeverRaisesLeader(states, acts) {
      forall k | 0 <= k <= |acts|
        ensures LeadersOk(states[k], voters)
      {
        LeadersAlwaysElected(states, voters, acts, k);
      }
    }
    if forall k {:trigger LeadersOk(states[k], voters)} :: 0 <= k <= |acts| ==> LeadersOk(states[k], voters) {
      forall k | 0 <= k < |acts|
        ensures !LeaderRaised(states[k], acts[k])
      {
        StepOf(states, acts, k);
        var anchors := InvAlways(states, voters, acts, k);
        assert LeadersOk(states[k + 1], voters);
        if LeaderRaised(states[k], acts[k]) {
          RaisedLeaderIsUnelected(states[k], voters, anchors, acts[k], states[k + 1]);
        }
      }
    }
  }

  predicate LeadsIn(c: Cluster, id: NodeId, term: nat) {
    id in c.nodes && c.nodes[id].role == Leader && c.nodes[id].currentTerm == term
  }

  lemma LeaderStaysElected(states: seq<Cluster>, voters: set<NodeId>, acts: seq<Action>, k: nat, x: NodeId, term: nat)
    requires ValidRun(states, acts) && Init(states[0], voters) && k <= |acts|
    requires VotesHold(states, acts) && NeverRaisesLeader(states, acts) && LeadsIn(states[k], x, term)
    ensures Elected(states[|acts|], voters, x, term)
  {
    var c := states[k];
    var anchors := InvAlways(states, voters, acts, k);
    LeadersAlwaysElected(states, voters, acts, k);
    assert LeaderOk(c, voters, c.nodes[x]) && NodeOk(c.nodes[x], x, voters, anchors[x]);
    RunGrows(states, acts, k, |acts|);
    SupportersGrow(c, states[|acts|], voters, x, term);
  }

  /** Over a whole run at most one node is ever leader in a term: leaders of a term at any two moments are the same. */
  lemma AtMostOneLeaderPerTerm(states: seq<Cluster>, voters: set<NodeId>, acts: seq<Action>, i: nat, j: nat,
                               x: NodeId, y: NodeId, term: nat)
    requires ValidRun(states, acts) && Init(states[0], voters) && i <= |acts| && j <= |acts|
    requires VotesHold(states, acts) && NeverRaisesLeader(states, acts)
    requires LeadsIn(states[i], x, term) && LeadsIn(states[j], y, term)
    ensures x == y
  {
    LeaderStaysElected(states, voters, acts, i, x, term);
    LeaderStaysElected(states, voters, acts, j, y, term);
    var anchors := InvAlways(states, voters, acts, |acts|);
    OneElectedPerTerm(states[|acts|], voters, x, y, term);
  }

  /** All heartbeats ever sent in a term name the same leader. */
  lemma HeartbeatsNameOneLeader(states: seq<Cluster>, voters: set<NodeId>, acts: seq<Action>, h: HeartbeatRequest,
                                h': HeartbeatRequest)
    requires ValidRun(states, acts) && Init(states[0], voters) && VotesHold(states, acts)
    requires NeverRaisesLeader(states, acts)
    requires HeartbeatMessage(h) in states[|acts|].sent && HeartbeatMessage(h') in states[|acts|].sent
    requires h.term == h'.term
    ensures h.leaderId == h'.leaderId
  {
    var b := states[|acts|];
    var anchors := InvAlways(states, voters, acts, |acts|);
    LeadersAlwaysElected(states, voters, acts, |acts|);
    assert HeartbeatOk(b, voters, HeartbeatMessage(h)) && HeartbeatOk(b, voters, HeartbeatMessage(h'));
    OneElectedPerTerm(b, voters, h.leaderId, h'.leaderId, h.term);
  }

  // ---- Election restriction ----

  /** The effect is a granted vote for this candidate. */
  predicate AnswersYes(outcome: Outcome, candidate: NodeId) {
    && outcome.Done? && outcome.effect.Some? && outcome.effect.value.SendRequestVoteResponse?
    && outcome.effect.value.peer == candidate && outcome.effect.value.vote.voteGranted
  }

  /** At step k, voter v granted the request while its log ended at a (term, index) no greater than the request says. */
  ghost predicate GrantedAt(states: seq<Cluster>, acts: seq<Action>, k: nat, v: NodeId, request: VoteRequest)
    requires ValidRun(states, acts) && k < |acts|
  {
    && acts[k] == Deliver(v, RequestVote(request))
    && v in states[k].nodes
    && var n := states[k].nodes[v];
       && AnswersYes(Handle(n, RequestVote(request)).outcome, request.candidateId)
       && (request.lastLogTerm > n.lastLogTerm ||
           (request.lastLogTerm == n.lastLogTerm && request.lastLogIndex >= n.lastLogIndex))
  }

  predicate Casts(c: Cluster, a: Action, b: Ballot) {
    && a.Deliver? && a.id in c.nodes
    && var t := Handle(c.nodes[a.id], a.ev);
       b in Ballots(t.node, t.outcome)
  }

  lemma NewBallotIsCast(c: Cluster, a: Action, b: Ballot)
    requires Enabled(c, a) && b in Next(c, a).ballots && b !in c.ballots
    ensures Casts(c, a, b)
  {
  }

  lemma {:induction false} BallotCameFromStep(states: seq<Cluster>, acts: seq<Action>, i: nat, b: Ballot)
    returns (k: nat)
    requires ValidRun(states, acts) && i <= |acts| && states[0].ballots == {}
    requires b in states[i].ballots
    ensures k < i && Casts(states[k], acts[k], b)
  {
    StepOf(states, acts, i - 1);
    if b in states[i - 1].ballots {
      k := BallotCameFromStep(states, acts, i - 1, b);
    } else {
      k := i - 1;
      NewBallotIsCast(states[k], acts[k], b);
    }
  }

  lemma VoterGranted(states: seq<Cluster>, voters: set<NodeId>, acts: seq<Action>, i: nat, v: NodeId, x: NodeId,
                     m: Message) returns (k: nat)
    requires ValidRun(states, acts) && Init(states[0], voters) && VotesHold(states, acts) && i <= |acts|
    requires m in states[i].sent && m.VoteRequestMessage? && m.request.candidateId == x
    requires v != x && HasBallot(states[i], v, m.request.term, x)
    ensures k < i && GrantedAt(states, acts, k, v, m.request)
  {
    var now := states[i];
    var b :| b in now.ballots && b.voter == v && b.term == m.request.term && b.candidate == x;
    k := BallotCameFromStep(states, acts, i, b);
    StepOf(states, acts, k);
    var anchors := InvAlways(states, voters, acts, k);
    var past, a := states[k], acts[k];
    assert NodeOk(past.nodes[a.id], a.id, voters, anchors[a.id]);
    FactsOfHandle(past.nodes[a.id], a.ev);
    assert BallotFact(past.nodes[a.id], a.ev, Handle(past.nodes[a.id], a.ev), b);
    var m' :| m' in past.sent && m'.VoteRequestMessage? && m'.request == a.ev.voteRequest && a.id in m'.peers;
    RunGrows(states, acts, k, i);
    var anchors' := InvAlways(states, voters, acts, i);
    assert SameRound(m, m');
    VoteGrantedIff(past.nodes[v], m.request, Handle(past.nodes[v], a.ev));
  }

  lemma RoundOf(c: Cluster, b: Ballot) returns (m: Message)
    requires BallotsRequested(c) && RequestsUnique(c) && b in c.ballots
    ensures m in c.sent && IsRequest(m, b.candidate, b.term)
    ensures forall m' :: m' in c.sent && IsRequest(m', b.candidate, b.term) ==> m' == m
  {
    assert BallotRequested(c, b);
    m :| m in c.sent && IsRequest(m, b.candidate, b.term);
    forall m' | m' in c.sent && IsRequest(m', b.candidate, b.term)
      ensures m' == m
    {
      assert SameRound(m', m);
    }
  }

  /**
   * Whoever wins had sent exactly one vote request in its term, and more than half of the voters stand behind it:
   * each of them other than the winner granted that request at an earlier step, when its own log was
   * no more up to date than the request says.
   */
  lemma ElectionRestriction(states: seq<Cluster>, voters: set<NodeId>, acts: seq<Action>, i: nat, x: NodeId, term: nat)
      returns (m: Message)
    requires ValidRun(states, acts) && Init(states[0], voters) && VotesHold(states, acts)
    requires WinsAt(states, acts, i, x, term)
    ensures x in states[i + 1].nodes && m in states[i].sent && IsRequest(m, x, term)
    ensures forall m' :: m' in states[i].sent && IsRequest(m', x, m.request.term) ==> m' == m
    ensures var quorum := states[i + 1].nodes[x].grantedVotes;
            && quorum <= voters && |quorum| > |voters| / 2
            && forall v :: v in quorum && v != x ==> exists k :: 0 <= k < i && GrantedAt(states, acts, k, v, m.request)
  {
    var now := states[i];
    var anchors := InvAlways(states, voters, acts, i);
    StepOf(states, acts, i);
    WinnerIsElected(now, voters, anchors, acts[i], x);
    var n' := states[i + 1].nodes[x];
    var v0 :| v0 in n'.grantedVotes;
    var b :| b in now.ballots && b.voter == v0 && b.term == n'.currentTerm && b.candidate == x;
    m := RoundOf(now, b);
    forall v | v in n'.grantedVotes && v != x
      ensures exists k :: 0 <= k < i && GrantedAt(states, acts, k, v, m.request)
    {
      var k := VoterGranted(states, voters, acts, i, v, x, m);
    }
  }
}
