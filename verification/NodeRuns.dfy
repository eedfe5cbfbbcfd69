/** What one node keeps over every sequence of events. */
module NodeRuns {
  import opened Bytes
  import opened RaftTypes
  import opened RaftCore

  /** The node that `Runtime::new` builds over a log with the given next offset and a loaded hard state. */
  function InitialNode(id: NodeId, voters: set<NodeId>, nextOffset: nat, hard: HardState): Node {
    var lastIndex := if nextOffset == 0 then 0 else nextOffset - 1;
    Node(id, map v | v in voters :: Progress(nextOffset, if v == id then lastIndex else 0), map[],
         Follower, hard.currentTerm, None, hard.votedFor, 0, 0, 0, 0, {})
  }

  /** A started node: follower with the loaded term and vote, nothing committed, only its own log taken as matched. */
  lemma InitialNodeIs(id: NodeId, voters: set<NodeId>, nextOffset: nat, hard: HardState, n: Node)
    requires n == InitialNode(id, voters, nextOffset, hard)
    ensures n.id == id && n.voters.Keys == voters && n.learners == map[] && n.role == Follower
    ensures n.currentTerm == hard.currentTerm && n.votedFor == hard.votedFor
    ensures n.leaderId == None && n.grantedVotes == {}
    ensures n.commitIndex == n.lastApplied == n.lastLogIndex == n.lastLogTerm == 0
    ensures forall p :: p in voters ==>
              && n.voters[p].nextIndex == nextOffset
              && (p != id ==> n.voters[p].matchIndex == 0)
              && (p == id && nextOffset > 0 ==> n.voters[p].matchIndex + 1 == nextOffset)
              && (nextOffset == 0 ==> n.voters[p].matchIndex == 0)
  {
  }

  function Run(n: Node, evs: seq<Event>): Node {
    if evs == [] then n else Handle(Run(n, evs[..|evs| - 1]), evs[|evs| - 1]).node
  }

  lemma RunStep(n: Node, evs: seq<Event>, k: nat)
    requires k < |evs|
    ensures Run(n, evs[..k + 1]) == Handle(Run(n, evs[..k]), evs[k]).node
  {
    assert evs[..k + 1][..k] == evs[..k];
  }

  // ---- Terms, votes and membership ----

  /** b may come after a: the term does not fall, a vote stands within its term, membership is fixed. */
  predicate MayFollow(a: Node, b: Node) {
    && a.currentTerm <= b.currentTerm
    && (a.currentTerm == b.currentTerm && a.votedFor != None ==> b.votedFor == a.votedFor)
    && a.id == b.id
    && a.voters.Keys == b.voters.Keys
    && a.learners.Keys == b.learners.Keys
  }

  lemma AppendResponseAdvances(n: Node, op: OperationId, from: NodeId, r: AppendResponse)
    ensures MayFollow(n, OnAppendEntriesResponse(n, op, from, r).node)
  {
    var reported := Progress(r.lastLogIndex + 1, r.lastLogIndex);
    assert from in n.voters ==> n.voters[from := reported].Keys == n.voters.Keys;
    assert from in n.learners ==> n.learners[from := reported].Keys == n.learners.Keys;
  }

  lemma HeartbeatResponseAdvances(n: Node, from: NodeId, r: AppendResponse)
    ensures MayFollow(n, OnHeartbeatResponse(n, from, r).node)
  {
    assert from in n.voters ==> n.voters[from := Matched(n.voters[from], r, n.lastLogIndex)].Keys == n.voters.Keys;
    assert from in n.learners ==>
             n.learners[from := Matched(n.learners[from], r, n.lastLogIndex)].Keys == n.learners.Keys;
  }

  lemma LocalEntryAdvances(n: Node, op: OperationId, index: nat, term: nat)
    ensures MayFollow(n, OnLocalEntryAppended(n, op, index, term).node)
  {
    assert n.id in n.voters ==> n.voters[n.id := Progress(index + 1, index)].Keys == n.voters.Keys;
  }

  predicate MovesProgress(ev: Event) {
    ev.AppendEntriesResponse? || ev.HeartbeatResponse? || ev.LocalEntriesAppended?
  }

  lemma OthersKeepMembers(n: Node, ev: Event, n': Node)
    requires !MovesProgress(ev) && n' == Handle(n, ev).node
    ensures n'.id == n.id && n'.voters == n.voters && n'.learners == n.learners
  {
  }

  lemma OthersAdvanceTerm(n: Node, ev: Event, n': Node)
    requires !MovesProgress(ev) && n' == Handle(n, ev).node
    ensures n.currentTerm <= n'.currentTerm
    ensures n.currentTerm == n'.currentTerm && n.votedFor != None ==> n'.votedFor == n.votedFor
  {
  }

  lemma HandleAdvances(n: Node, ev: Event)
    ensures MayFollow(n, Handle(n, ev).node)
  {
    match ev {
      case AppendEntriesResponse(op, from, response) => AppendResponseAdvances(n, op, from, response);
      case HeartbeatResponse(from, response) => HeartbeatResponseAdvances(n, from, response);
      case LocalEntriesAppended(op, index, term) => LocalEntryAdvances(n, op, index, term);
      case _ =>
        OthersKeepMembers(n, ev, Handle(n, ev).node);
        OthersAdvanceTerm(n, ev, Handle(n, ev).node);
    }
  }

  lemma StepAdvances(n: Node, evs: seq<Event>, k: nat)
    requires k < |evs|
    ensures MayFollow(Run(n, evs[..k]), Run(n, evs[..k + 1]))
  {
    RunStep(n, evs, k);
    HandleAdvances(Run(n, evs[..k]), evs[k]);
  }

  lemma FollowsOn(a: Node, b: Node, c: Node)
    requires MayFollow(a, b) && MayFollow(b, c)
    ensures MayFollow(a, c)
  {
  }

  /** Over every run: between any two moments i <= j, terms only rise and a cast vote is kept within its term. */
  lemma {:induction false} TermsAndVotesOnlyAdvance(n: Node, evs: seq<Event>, i: nat, j: nat)
    requires i <= j <= |evs|
    ensures MayFollow(Run(n, evs[..i]), Run(n, evs[..j]))
    decreases j
  {
    if i < j {
      TermsAndVotesOnlyAdvance(n, evs, i, j - 1);
      StepAdvances(n, evs, j - 1);
      FollowsOn(Run(n, evs[..i]), Run(n, evs[..j - 1]), Run(n, evs[..j]));
    }
  }

  // ---- Commit index ----

  predicate Bounded(n: Node) {
    n.lastApplied <= n.commitIndex <= n.lastLogIndex
  }

  /** Events whose reported position does not contradict what is already committed. */
  predicate RespectsCommit(n: Node, ev: Event) {
    match ev
    case EntriesPersisted(_, index, _, _) => index >= n.commitIndex
    case LocalEntriesAppended(_, index, _) => n.role == Leader ==> index >= n.commitIndex
    case EntriesApplied(_, through) => through <= n.commitIndex
    case _ => true
  }

  /** Exactly the events that respect the commit index keep it monotone and between the two other positions. */
  lemma BoundsKeptIffRespected(n: Node, ev: Event)
    requires Bounded(n)
    ensures RespectsCommit(n, ev) <==>
            (Bounded(Handle(n, ev).node) && n.commitIndex <= Handle(n, ev).node.commitIndex)
  {
  }

  /** The apply request carried by the effect of handling ev in n, if any. */
  function Emitted(n: Node, ev: Event): Option<nat> {
    match Handle(n, ev).outcome
    case Done(Some(ApplyCommitted(_, through))) => Some(through)
    case Done(Some(SendHeartbeatResponse(_, _, _, through))) => through
    case _ => None
  }

  /** Event k reports what a correct executor reports: positions that extend, and applies that were asked for. */
  ghost predicate WellDriven(n: Node, evs: seq<Event>, k: nat)
    requires k < |evs|
  {
    var m := Run(n, evs[..k]);
    match evs[k]
    case EntriesPersisted(_, index, _, _) => index >= m.commitIndex
    case LocalEntriesAppended(_, index, _) => index > m.lastLogIndex
    case EntriesApplied(_, through) => exists j :: 0 <= j < k && Emitted(Run(n, evs[..j]), evs[j]) == Some(through)
    case _ => true
  }

  lemma EmittedIsCommitted(n: Node, ev: Event)
    ensures Emitted(n, ev) != None ==> Emitted(n, ev).value == Handle(n, ev).node.commitIndex
  {
  }

  /** In every well-driven run the bounds hold at every moment and the commit index never falls. */
  lemma {:induction false} CommitIndexMonotone(n: Node, evs: seq<Event>, i: nat, j: nat)
    requires Bounded(n)
    requires forall k :: 0 <= k < |evs| ==> WellDriven(n, evs, k)
    requires i <= j <= |evs|
    ensures Bounded(Run(n, evs[..j]))
    ensures Run(n, evs[..i]).commitIndex <= Run(n, evs[..j]).commitIndex
    decreases j
  {
    if j > 0 {
      var k := j - 1;
      var m := Run(n, evs[..k]);
      CommitIndexMonotone(n, evs, Min(i, k), k);
      RunStep(n, evs, k);
      assert WellDriven(n, evs, k);
      if evs[k].EntriesApplied? {
        var e :| 0 <= e < k && Emitted(Run(n, evs[..e]), evs[e]) == Some(evs[k].through);
        EmittedIsCommitted(Run(n, evs[..e]), evs[e]);
        RunStep(n, evs, e);
        CommitIndexMonotone(n, evs, e + 1, k);
      }
      BoundsKeptIffRespected(m, evs[k]);
    }
  }

  // ---- Commits on append responses ----

  /** A response from p, to an append request or of success to a heartbeat, that names `index` or a later position. */
  predicate Reports(ev: Event, p: NodeId, index: nat) {
    && (ev.AppendEntriesResponse? || (ev.HeartbeatResponse? && ev.response.success))
    && ev.from == p && ev.response.lastLogIndex >= index
  }

  /** Event j makes the node record a local entry at `index` or later; only a leader does. */
  ghost predicate Records(n: Node, evs: seq<Event>, j: nat, index: nat)
    requires j < |evs|
  {
    evs[j].LocalEntriesAppended? && evs[j].index >= index && Run(n, evs[..j]).role == Leader
  }

  /** p reported `index` in a delivered response, or p is the node itself and had recorded it locally. */
  ghost predicate Witnessed(n: Node, evs: seq<Event>, p: NodeId, index: nat) {
    || (exists j :: 0 <= j < |evs| && Reports(evs[j], p, index))
    || (p == n.id && p in n.voters && n.voters[p].matchIndex >= index)
    || (p == n.id && exists j {:trigger Records(n, evs, j, index)} :: 0 <= j < |evs| && Records(n, evs, j, index))
  }

  ghost predicate MatchesWitnessed(n: Node, evs: seq<Event>) {
    var m := Run(n, evs);
    forall p :: p in m.voters && m.voters[p].matchIndex > 0 ==> Witnessed(n, evs, p, m.voters[p].matchIndex)
  }

  lemma WitnessedLater(n: Node, evs: seq<Event>, ev: Event, p: NodeId, index: nat, lower: nat)
    requires Witnessed(n, evs, p, index) && lower <= index
    ensures Witnessed(n, evs + [ev], p, lower)
  {
    var longer := evs + [ev];
    assert forall j :: 0 <= j < |evs| ==> longer[j] == evs[j];
    if j :| 0 <= j < |evs| && Reports(evs[j], p, index) {
      assert Reports(longer[j], p, lower);
    }
    if j: nat :| j < |evs| && Records(n, evs, j, index) {
      assert longer[..j] == evs[..j];
      assert Records(n, longer, j, lower);
    }
  }

  /** How one event moves the recorded position of one voter. */
  lemma MatchMoves(n: Node, ev: Event, p: NodeId)
    requires p in n.voters
    ensures p in Handle(n, ev).node.voters
    ensures var now := Handle(n, ev).node.voters[p].matchIndex;
            || now <= n.voters[p].matchIndex
            || Reports(ev, p, now)
            || (p == n.id && ev.LocalEntriesAppended? && now == ev.index && n.role == Leader)
  {
  }

  lemma {:induction false} MatchesAreWitnessed(n: Node, evs: seq<Event>)
    requires forall p :: p in n.voters && p != n.id ==> n.voters[p].matchIndex == 0
    ensures MatchesWitnessed(n, evs)
  {
    if evs != [] {
      var before, ev := evs[..|evs| - 1], evs[|evs| - 1];
      assert evs == before + [ev];
      MatchesAreWitnessed(n, before);
      var m := Run(n, before);
      var m' := Run(n, evs);
      HandleAdvances(m, ev);
      TermsAndVotesOnlyAdvance(n, before, 0, |before|);
      assert before[..|before|] == before && before[..0] == [];
      forall p | p in m'.voters && m'.voters[p].matchIndex > 0
        ensures Witnessed(n, evs, p, m'.voters[p].matchIndex)
      {
        MatchMoves(m, ev, p);
        var now := m'.voters[p].matchIndex;
        if now <= m.voters[p].matchIndex {
          WitnessedLater(n, before, ev, p, m.voters[p].matchIndex, now);
        } else {
          assert evs[|evs| - 1] == ev && evs[..|evs| - 1] == before;
          assert ev.LocalEntriesAppended? ==> Records(n, evs, |evs| - 1, now);
        }
      }
    }
  }

  lemma SubsetSize(a: set<NodeId>, b: set<NodeId>)
    requires a <= b
    ensures |a| <= |b|
  {
    assert b == a + (b - a);
  }

  lemma CommitNeedsCaughtUpMajority(n: Node, ev: Event)
    requires ev.AppendEntriesResponse?
    requires Handle(n, ev).node.commitIndex != n.commitIndex
    ensures var m := Handle(n, ev).node;
            && n.commitIndex < m.commitIndex == m.lastLogIndex == n.lastLogIndex
            && |CaughtUp(m)| > |m.voters.Keys| / 2
  {
    assert CaughtUp(Handle(n, ev).node) == CaughtUp(n.(voters := Handle(n, ev).node.voters));
  }

  lemma {:induction false} MembersNeverChange(n: Node, evs: seq<Event>)
    ensures Run(n, evs).voters.Keys == n.voters.Keys
  {
    TermsAndVotesOnlyAdvance(n, evs, 0, |evs|);
    assert evs[..|evs|] == evs && evs[..0] == [];
  }

  lemma WitnessedBelow(n: Node, evs: seq<Event>, p: NodeId, index: nat, lower: nat)
    requires Witnessed(n, evs, p, index) && lower <= index
    ensures Witnessed(n, evs, p, lower)
  {
    if j :| 0 <= j < |evs| && Reports(evs[j], p, index) {
      assert Reports(evs[j], p, lower);
    }
    if j: nat :| j < |evs| && Records(n, evs, j, index) {
      assert Records(n, evs, j, lower);
    }
  }

  ghost function Witnesses(n: Node, evs: seq<Event>, index: nat): set<NodeId> {
    set p | p in n.voters && Witnessed(n, evs, p, index)
  }

  /** Every commit made on an append response is witnessed by more than half of the voters. */
  lemma {:induction false} CommitHasMajorityWitness(n: Node, evs: seq<Event>, ev: Event, before: Node, after: Node)
    requires forall p :: p in n.voters && p != n.id ==> n.voters[p].matchIndex == 0
    requires before == Run(n, evs) && after == Run(n, evs + [ev])
    requires ev.AppendEntriesResponse? && after.commitIndex != before.commitIndex
    ensures before.commitIndex < after.commitIndex == before.lastLogIndex
    ensures |Witnesses(n, evs + [ev], after.commitIndex)| > |n.voters| / 2
  {
    var all := evs + [ev];
    RunStep(n, all, |evs|);
    assert all[..|evs|] == evs && all[..|evs| + 1] == all;
    CommitNeedsCaughtUpMajority(before, ev);
    MembersNeverChange(n, all);
    MatchesAreWitnessed(n, all);
    forall p | p in CaughtUp(after)
      ensures p in Witnesses(n, all, after.commitIndex)
    {
      WitnessedBelow(n, all, p, after.voters[p].matchIndex, after.commitIndex);
    }
    SubsetSize(CaughtUp(after), Witnesses(n, all, after.commitIndex));
  }
}
