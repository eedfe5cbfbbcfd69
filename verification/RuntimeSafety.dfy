/** What a single-voter leader guarantees to its clients and to its state machine over every sequence of writes. */
module RuntimeSafety {
  import opened Bytes
  import opened RaftTypes
  import opened RaftCore
  import CoreRules
  import Replication
  import opened LogStore
  import opened RuntimeModel
  import opened NodeRuns
  import opened HardStateStorage
  import opened RaftCluster

  predicate SoleLeader(n: Node) {
    n.role == Leader && n.voters.Keys == {n.id} && n.learners == map[]
  }

  // ---- The drive loop in closed form ----

  function Answered(rt: Runtime, op: OperationId, error: Option<Error>): Runtime {
    rt.(operations := rt.operations - {op}, replies := rt.replies + [Reply(op, error, None)])
  }

  /** The state of a sole leader after it has recorded and committed an entry. */
  function Recorded(n: Node, index: nat, term: nat): Node {
    n.(lastLogIndex := index, lastLogTerm := term, commitIndex := index,
       voters := n.voters[n.id := Progress(index + 1, index)])
  }

  /** The record that a write appends. */
  function NewRecord(codec: Codec, rt: Runtime, data: Command): Record {
    codec.encode(LogEntry(rt.raft.currentTerm, data))
  }

  /** What the apply loop does once a write is recorded and committed. */
  function NewApplies(codec: Codec, rt: Runtime, data: Command, f: Faults): ApplyResult {
    var log := rt.log + [NewRecord(codec, rt, data)];
    ApplyFrom(codec, log, rt.applied, rt.raft.lastApplied + 1, |log|, f.applyFails)
  }

  /** A write on a sole leader without the detour over events and effects. */
  function DirectWrite(codec: Codec, rt: Runtime, data: Command, f: Faults): Runtime {
    Answers(rt.(nextOperationId := rt.nextOperationId + 1), rt.nextOperationId,
            NewRecord(codec, rt, data), f, NewApplies(codec, rt, data, f))
  }

  lemma SoleLeaderHandles(n: Node, op: OperationId, index: nat, term: nat)
    requires SoleLeader(n)
    ensures Handle(n, Write(op)) == Transition(n, Done(Some(AppendLocal(op, n.currentTerm, n.lastLogIndex))))
    ensures Handle(n, LocalEntriesAppended(op, index, term))
            == Transition(Recorded(n, index, term), Done(Some(ApplyCommitted(op, index))))
    ensures Handle(n, EntriesApplied(op, index))
            == Transition(n.(lastApplied := index), Done(Some(CompleteOperation(op))))
  {
    assert Targets(n, n.voters) == {} && Targets(n, n.learners) == {};
  }

  /** How the drive loop goes on after one effect. */
  function Resume(codec: Codec, e: Executed, f: Faults): Driven {
    match e
    case Panic(rt) => Crashed(rt)
    case Abort(rt, error) => Errored(rt, error)
    case Continue(rt, None) => Finished(rt)
    case Continue(rt, Some(next)) => Drive(codec, rt, next, f)
  }

  lemma DriveStep(codec: Codec, rt: Runtime, ev: Event, f: Faults, t: Transition, effect: Effect)
    requires t == Handle(rt.raft, ev) && t.outcome == Done(Some(effect))
    ensures Drive(codec, rt, ev, f) == Resume(codec, Execute(codec, rt.(raft := t.node), effect, f), f)
  {
  }

  lemma DriveApplied(codec: Codec, rt: Runtime, op: OperationId, through: nat, f: Faults)
    requires SoleLeader(rt.raft) && IsWrite(rt, op)
    ensures Drive(codec, rt, EntriesApplied(op, through), f)
            == Finished(Answered(rt.(raft := rt.raft.(lastApplied := through)), op, None))
  {
    SoleLeaderHandles(rt.raft, op, through, 0);
    var ev := EntriesApplied(op, through);
    DriveStep(codec, rt, ev, f, Handle(rt.raft, ev), CompleteOperation(op));
  }

  /** What follows once the apply loop has ended with `result`. */
  function AfterApply(rt: Runtime, op: OperationId, index: nat, result: ApplyResult): Driven {
    var rt' := rt.(applied := result.applied);
    if result.error != None then Errored(rt', result.error.value)
    else Finished(Answered(rt'.(raft := rt.raft.(lastApplied := index)), op, None))
  }

  lemma DriveAppended(codec: Codec, rt: Runtime, op: OperationId, index: nat, term: nat, f: Faults, result: ApplyResult)
    requires SoleLeader(rt.raft) && IsWrite(rt, op)
    requires result == ApplyFrom(codec, rt.log, rt.applied, rt.raft.lastApplied + 1, index, f.applyFails)
    ensures Drive(codec, rt, LocalEntriesAppended(op, index, term), f)
            == AfterApply(rt.(raft := Recorded(rt.raft, index, term)), op, index, result)
  {
    var ev, rt' := LocalEntriesAppended(op, index, term), rt.(raft := Recorded(rt.raft, index, term));
    SoleLeaderHandles(rt.raft, op, index, term);
    DriveStep(codec, rt, ev, f, Handle(rt.raft, ev), ApplyCommitted(op, index));
    assert SoleLeader(rt'.raft);
    if result.error == None {
      DriveApplied(codec, rt'.(applied := result.applied), op, index, f);
    }
  }

  /** Where the drive loop of a write ends, with the apply loop's `result` if it gets that far. */
  function WriteEnd(codec: Codec, rt: Runtime, op: OperationId, record: Record, f: Faults,
                    result: ApplyResult): Driven {
    if f.encodeFails then Errored(rt, EntrySerialisationFailed)
    else if f.appendFails then Errored(rt, AppendFailed)
    else if f.rotateFails then Errored(rt.(log := rt.log + [record]), AppendFailed)
    else
      var log := rt.log + [record];
      AfterApply(rt.(log := log, raft := Recorded(rt.raft, |log|, rt.raft.currentTerm)), op, |log|, result)
  }

  lemma DriveWrite(codec: Codec, rt: Runtime, op: OperationId, data: Command, f: Faults, result: ApplyResult)
    requires SoleLeader(rt.raft) && op in rt.operations && rt.operations[op] == WriteOperation(Some(data))
    requires var log := rt.log + [NewRecord(codec, rt, data)];
             result == ApplyFrom(codec, log, rt.applied, rt.raft.lastApplied + 1, |log|, f.applyFails)
    ensures Drive(codec, rt, Write(op), f)
            == WriteEnd(codec, rt.(operations := rt.operations[op := WriteOperation(None)]), op,
                        NewRecord(codec, rt, data), f, result)
  {
    var n := rt.raft;
    SoleLeaderHandles(n, op, 0, 0);
    DriveStep(codec, rt, Write(op), f, Handle(n, Write(op)), AppendLocal(op, n.currentTerm, n.lastLogIndex));
    if !f.encodeFails && !f.appendFails && !f.rotateFails {
      var rt2 := rt.(operations := rt.operations[op := WriteOperation(None)],
                     log := rt.log + [NewRecord(codec, rt, data)]);
      DriveAppended(codec, rt2, op, |rt2.log|, n.currentTerm, f, result);
    }
  }

  /** Both ends of a write answer it: the error path through `fail_operation`, the other by completing it. */
  lemma EndAnswers(codec: Codec, rt: Runtime, op: OperationId, record: Record, f: Faults, result: ApplyResult,
                   end: Driven)
    requires op in rt.operations && end == WriteEnd(codec, rt, op, record, f, result)
    ensures end.Finished? || end.Errored?
    ensures (if end.Finished? then end.rt else FailOperation(end.rt, op, end.error))
            == Answers(rt, op, record, f, result)
  {
  }

  function Answers(rt: Runtime, op: OperationId, record: Record, f: Faults, result: ApplyResult): Runtime {
    if f.encodeFails then Answered(rt, op, Some(EntrySerialisationFailed))
    else if f.appendFails then Answered(rt, op, Some(AppendFailed))
    else if f.rotateFails then Answered(rt.(log := rt.log + [record]), op, Some(AppendFailed))
    else
      var log := rt.log + [record];
      var n' := Recorded(rt.raft, |log|, rt.raft.currentTerm);
      Answered(rt.(log := log, applied := result.applied,
                   raft := if result.error == None then n'.(lastApplied := |log|) else n'), op, result.error)
  }

  /** The drive loop does to a sole leader exactly what the direct form does, and never panics. */
  lemma DriveIsDirect(codec: Codec, rt: Runtime, data: Command, f: Faults)
    requires SoleLeader(rt.raft)
    ensures HandleWrite(codec, rt, data, f) == Some(DirectWrite(codec, rt, data, f))
  {
    var op := rt.nextOperationId;
    var rt0 := Registered(rt, data);
    var rt1 := rt0.(operations := rt0.operations[op := WriteOperation(None)]);
    var result := NewApplies(codec, rt, data, f);
    DriveWrite(codec, rt0, op, data, f, result);
    EndAnswers(codec, rt1, op, NewRecord(codec, rt, data), f, result, Drive(codec, rt0, Write(op), f));
    assert rt1.operations - {op} == rt.operations - {op};
  }

  /**
   * A write on a leader with other members is recorded and sent out, and waits: no reply, nothing applied or
   * committed, and the operation pending without its command.
   */
  lemma ReplicatedWriteWaits(codec: Codec, rt: Runtime, data: Command, f: Faults) returns (rt': Runtime)
    requires rt.raft.role == Leader && rt.raft.id in rt.raft.voters
    requires rt.raft.voters.Keys + rt.raft.learners.Keys - {rt.raft.id} != {}
    requires !f.encodeFails && !f.appendFails && !f.rotateFails
    ensures HandleWrite(codec, rt, data, f) == Some(rt')
    ensures rt'.log == rt.log + [NewRecord(codec, rt, data)] && rt'.replies == rt.replies && rt'.applied == rt.applied
    ensures rt'.operations == rt.operations[rt.nextOperationId := WriteOperation(None)]
    ensures rt'.raft.commitIndex == rt.raft.commitIndex && rt'.raft.lastLogIndex == |rt'.log|
  {
    var op, n, index := rt.nextOperationId, rt.raft, |rt.log| + 1;
    var rt1 := Registered(rt, data);
    CoreRules.WriteAppends(n, op, Handle(n, Write(op)));
    DriveStep(codec, rt1, Write(op), f, Handle(n, Write(op)), AppendLocal(op, n.currentTerm, n.lastLogIndex));
    var ev := LocalEntriesAppended(op, index, n.currentTerm);
    var t := Handle(n, ev);
    Replication.LocalAppendReachesAll(n, op, index, n.currentTerm, t);
    var rt2 := rt1.(operations := rt1.operations[op := WriteOperation(None)],
                    log := rt.log + [NewRecord(codec, rt, data)]);
    DriveStep(codec, rt2, ev, f, t, t.outcome.effect.value);
    rt' := rt2.(raft := t.node);
  }

  /** Executing an effect panics exactly where sending is not implemented or the operation is not of the right kind. */
  lemma ExecutePanicsIff(codec: Codec, rt: Runtime, effect: Effect, f: Faults)
    ensures Execute(codec, rt, effect, f).Panic? <==>
            match effect
            case SendRequestVotes(_, _, _) => !f.persistFails
            case SendRequestVoteResponse(hard, _, _) => hard == None || !f.persistFails
            case SendHeartbeat(_, _) => true
            case SendHeartbeatResponse(_, _, _, _) => true
            case PersistEntries(_, _, _, _, _) => true
            case SendAppendEntries(_, _) => false
            case ApplyCommitted(_, _) => false
            case AppendLocal(op, _, _) =>
              op !in rt.operations || !rt.operations[op].WriteOperation? || rt.operations[op].data == None
            case CompleteOperation(op) => op !in rt.operations || !rt.operations[op].WriteOperation?
            case RejectAppendEntries(op, _, _) => op !in rt.operations || !rt.operations[op].AppendOperation?
  {
  }

  /** A recorded entry ends in a panic exactly if the leader is not among its own voters. */
  lemma DriveAppendedPanicsIff(codec: Codec, rt: Runtime, op: OperationId, index: nat, term: nat, f: Faults)
    requires rt.raft.role == Leader && IsWrite(rt, op)
    ensures Drive(codec, rt, LocalEntriesAppended(op, index, term), f).Crashed? <==> rt.raft.id !in rt.raft.voters
  {
    var n, ev := rt.raft, LocalEntriesAppended(op, index, term);
    var t := Handle(n, ev);
    if n.id !in n.voters {
      Replication.LocalAppendRefused(n, op, index, term, t);
    } else {
      Replication.LocalAppendReachesAll(n, op, index, term, t);
      var rt', effect := rt.(raft := t.node), t.outcome.effect.value;
      DriveStep(codec, rt, ev, f, t, effect);
      ExecutePanicsIff(codec, rt', effect, f);
      var e := Execute(codec, rt', effect, f);
      if e.Continue? && e.next != None {
        var t' := Handle(e.rt.raft, e.next.value);
        CoreRules.AppliedCompletes(e.rt.raft, op, index, t');
        DriveStep(codec, e.rt, e.next.value, f, t', CompleteOperation(op));
      }
    }
  }

  /** A client write panics exactly on a leader that is not among its own voters, and only once it is recorded. */
  lemma WritePanicsIff(codec: Codec, rt: Runtime, data: Command, f: Faults)
    ensures HandleWrite(codec, rt, data, f) == None <==>
            && rt.raft.role == Leader && rt.raft.id !in rt.raft.voters
            && !f.encodeFails && !f.appendFails && !f.rotateFails
  {
    var op, n := rt.nextOperationId, rt.raft;
    var rt1 := Registered(rt, data);
    var t := Handle(n, Write(op));
    CoreRules.WriteAppends(n, op, t);
    if n.role == Leader {
      DriveStep(codec, rt1, Write(op), f, t, AppendLocal(op, n.currentTerm, n.lastLogIndex));
      if !f.encodeFails && !f.appendFails && !f.rotateFails {
        var rt2 := rt1.(operations := rt1.operations[op := WriteOperation(None)],
                        log := rt.log + [NewRecord(codec, rt, data)]);
        DriveAppendedPanicsIff(codec, rt2, op, |rt.log| + 1, n.currentTerm, f);
      }
    }
  }

  /** A refused append request is answered once, with the refusal, and no longer pending. */
  lemma RefusedAppendIsAnswered(codec: Codec, rt: Runtime, op: OperationId, q: AppendRequest, prev: Option<nat>,
                                f: Faults, rt': Runtime)
    requires op in rt.operations && rt.operations[op] == AppendOperation && !CoreRules.Fits(rt.raft, q, prev)
    requires rt' == Drive(codec, rt, AppendEntries(op, q, prev), f).rt
    ensures Drive(codec, rt, AppendEntries(op, q, prev), f) == Finished(rt')
    ensures rt' == rt.(raft := rt'.raft, operations := rt'.operations, replies := rt'.replies)
    ensures rt'.operations == rt.operations - {op} && |rt'.replies| == |rt.replies| + 1 && rt.replies <= rt'.replies
    ensures var reply := rt'.replies[|rt.replies|];
            && reply.operationId == op && reply.error == None && reply.response != None
            && !reply.response.value.success && reply.response.value.term == rt'.raft.currentTerm
            && reply.response.value.lastLogIndex == rt.raft.lastLogIndex
  {
    var t := Handle(rt.raft, AppendEntries(op, q, prev));
    CoreRules.RefusedAppend(rt.raft, op, q, prev, t);
  }

  /** A node that is not leader refuses the write and changes nothing else. */
  lemma NonLeaderRefuses(codec: Codec, rt: Runtime, data: Command, f: Faults)
    requires rt.raft.role != Leader && rt.nextOperationId !in rt.operations
    ensures HandleWrite(codec, rt, data, f) ==
            Some(rt.(nextOperationId := rt.nextOperationId + 1,
                     replies := rt.replies + [Reply(rt.nextOperationId, Some(NotLeader(rt.raft.leaderId)), None)]))
  {
    var op := rt.nextOperationId;
    assert rt.operations[op := WriteOperation(Some(data))] - {op} == rt.operations;
  }

  // ---- One write ----

  /** The command at a log index, counted from 1. */
  function CommandAt(codec: Codec, log: seq<Record>, index: nat): Command
    requires 1 <= index <= |log|
  {
    match codec.decode(log[index - 1])
    case Some(entry) => entry.command
    case None => []
  }

  /** The commands at indexes from..=to with their indexes. */
  function Commands(codec: Codec, log: seq<Record>, from: nat, to: nat): (r: seq<(nat, Command)>)
    requires 1 <= from <= to + 1 && to <= |log|
    ensures |r| == to + 1 - from
    ensures forall k :: 0 <= k < |r| ==> r[k] == (from + k, CommandAt(codec, log, from + k))
  {
    if from > to then [] else Commands(codec, log, from, to - 1) + [(to, CommandAt(codec, log, to))]
  }

  predicate Decodable(codec: Codec, log: seq<Record>) {
    forall i :: 0 <= i < |log| ==> codec.decode(log[i]) != None
  }

  /** The apply loop accepts a run of entries in order and stops early only at a refused one. */
  lemma {:induction false} ApplyRun(codec: Codec, log: seq<Record>, applied: seq<(nat, Command)>,
                                    index: nat, through: nat, fails: set<nat>) returns (reached: nat)
    requires Decodable(codec, log) && 1 <= index <= through + 1 && through <= |log|
    ensures index - 1 <= reached <= through
    ensures var r := ApplyFrom(codec, log, applied, index, through, fails);
            && r.applied == applied + Commands(codec, log, index, reached)
            && (r.error == None <==> reached == through)
            && (reached < through ==> reached + 1 in fails)
    ensures forall i :: index <= i <= reached ==> i !in fails
    decreases through + 1 - index
  {
    reached := index - 1;
    if index <= through && index !in fails {
      var first := (index, CommandAt(codec, log, index));
      reached := ApplyRun(codec, log, applied + [first], index + 1, through, fails);
      assert [first] + Commands(codec, log, index + 1, reached) == Commands(codec, log, index, reached);
    }
  }

  /** Entry i is in the log, decodes and is accepted by the state machine. */
  predicate Appliable(codec: Codec, log: seq<Record>, fails: set<nat>, i: nat) {
    1 <= i <= |log| && codec.decode(log[i - 1]) != None && i !in fails
  }

  /** The pair is a log index and the command of its entry. */
  predicate IsEntry(codec: Codec, log: seq<Record>, e: (nat, Command)) {
    && 1 <= e.0 <= |log| && codec.decode(log[e.0 - 1]) != None
    && codec.decode(log[e.0 - 1]).value.command == e.1
  }

  /** Why entry i cannot be applied. */
  function Obstacle(codec: Codec, log: seq<Record>, i: nat): Error {
    if i == 0 || i > |log| then ReadCommittedEntryFailed
    else if codec.decode(log[i - 1]) == None then EntryDeserialisationFailed
    else ApplyCommittedEntryFailed
  }

  /**
   * For any log, readable or not: the apply loop applies a run of entries without gap, in order and with their own
   * commands, and stops exactly at the first entry that cannot be applied, with the error that says why.
   */
  lemma {:induction false} ApplyStopsAtObstacle(codec: Codec, log: seq<Record>, applied: seq<(nat, Command)>,
                                                index: nat, through: nat, fails: set<nat>, r: ApplyResult)
    returns (reached: nat)
    requires 1 <= index <= through + 1 && r == ApplyFrom(codec, log, applied, index, through, fails)
    ensures index - 1 <= reached <= through
    ensures forall i :: index <= i <= reached ==> Appliable(codec, log, fails, i)
    ensures |r.applied| == |applied| + reached + 1 - index && applied <= r.applied
    ensures forall k :: |applied| <= k < |r.applied| ==>
              r.applied[k].0 == index + k - |applied| && IsEntry(codec, log, r.applied[k])
    ensures r.error == None <==> reached == through
    ensures reached < through ==>
              !Appliable(codec, log, fails, reached + 1) && r.error == Some(Obstacle(codec, log, reached + 1))
    decreases through + 1 - index
  {
    reached := index - 1;
    if index <= through && Appliable(codec, log, fails, index) {
      var more := applied + [(index, codec.decode(log[index - 1]).value.command)];
      reached := ApplyStopsAtObstacle(codec, log, more, index + 1, through, fails, r);
      assert r.applied[|applied|] == more[|applied|];
    }
  }

  /** A sole leader with a decodable log and no operation id ahead of the counter. */
  ghost predicate RuntimeOk(codec: Codec, rt: Runtime) {
    && SoleLeader(rt.raft)
    && Decodable(codec, rt.log)
    && rt.raft.lastApplied <= |rt.log|
    && forall op :: op in rt.operations ==> op < rt.nextOperationId
  }

  /** One more reply, for the operation id that was next, and nothing left pending for it. */
  predicate RepliedOnce(rt: Runtime, rt': Runtime) {
    && rt'.nextOperationId == rt.nextOperationId + 1
    && rt'.operations == rt.operations
    && |rt'.replies| == |rt.replies| + 1
    && rt'.replies[..|rt.replies|] == rt.replies
    && rt'.replies[|rt.replies|].operationId == rt.nextOperationId
  }

  predicate AnsweredOk(rt: Runtime) {
    rt.replies != [] && rt.replies[|rt.replies| - 1].error == None
  }

  /**
   * How a write ends: refused without a trace in the log; recorded but answered with an error, as the next segment
   * could not be opened; or recorded, with entries applied up to `reached`.
   */
  predicate Wrote(codec: Codec, rt: Runtime, data: Command, f: Faults, rt': Runtime, reached: nat) {
    && RepliedOnce(rt, rt')
    && if f.encodeFails || f.appendFails then
         !AnsweredOk(rt') && rt'.raft == rt.raft && rt'.applied == rt.applied && rt'.log == rt.log
       else if f.rotateFails then
         && !AnsweredOk(rt') && rt'.raft == rt.raft && rt'.applied == rt.applied
         && rt'.log == rt.log + [NewRecord(codec, rt, data)]
       else
         && rt'.log == rt.log + [NewRecord(codec, rt, data)]
         && rt.raft.lastApplied <= reached <= |rt'.log|
         && rt'.applied == rt.applied + Commands(codec, rt'.log, rt.raft.lastApplied + 1, reached)
         && (AnsweredOk(rt') <==> reached == |rt'.log|)
         && (reached < |rt'.log| ==> reached + 1 in f.applyFails)
         && (forall i :: rt.raft.lastApplied < i <= reached ==> i !in f.applyFails)
         && rt'.raft.lastApplied == (if reached == |rt'.log| then reached else rt.raft.lastApplied)
  }

  lemma AnswersWrote(codec: Codec, rt: Runtime, data: Command, f: Faults, result: ApplyResult, reached: nat,
                     rt': Runtime)
    requires rt.nextOperationId !in rt.operations
    requires rt' == Answers(rt.(nextOperationId := rt.nextOperationId + 1), rt.nextOperationId,
                            NewRecord(codec, rt, data), f, result)
    requires var log := rt.log + [NewRecord(codec, rt, data)];
             && rt.raft.lastApplied <= reached <= |log|
             && result.applied == rt.applied + Commands(codec, log, rt.raft.lastApplied + 1, reached)
             && (result.error == None <==> reached == |log|)
             && (reached < |log| ==> reached + 1 in f.applyFails)
             && (forall i :: rt.raft.lastApplied < i <= reached ==> i !in f.applyFails)
    ensures Wrote(codec, rt, data, f, rt', reached)
  {
    assert rt.operations - {rt.nextOperationId} == rt.operations;
  }

  lemma DecodableGrows(codec: Codec, log: seq<Record>, e: LogEntry)
    requires RoundTrips(codec) && Decodable(codec, log)
    ensures Decodable(codec, log + [codec.encode(e)])
  {
    assert codec.decode(codec.encode(e)) == Some(e);
  }

  /** Every write on a sole leader, whatever fails, keeps the invariant and ends in one of those ways. */
  lemma WriteOutcome(codec: Codec, rt: Runtime, data: Command, f: Faults) returns (rt': Runtime, reached: nat)
    requires RoundTrips(codec) && RuntimeOk(codec, rt)
    ensures HandleWrite(codec, rt, data, f) == Some(rt')
    ensures RuntimeOk(codec, rt') && Wrote(codec, rt, data, f, rt', reached)
  {
    DriveIsDirect(codec, rt, data, f);
    rt' := DirectWrite(codec, rt, data, f);
    DecodableGrows(codec, rt.log, LogEntry(rt.raft.currentTerm, data));
    var log := rt.log + [NewRecord(codec, rt, data)];
    reached := ApplyRun(codec, log, rt.applied, rt.raft.lastApplied + 1, |log|, f.applyFails);
    AnswersWrote(codec, rt, data, f, NewApplies(codec, rt, data, f), reached, rt');
    assert SoleLeader(Recorded(rt.raft, |log|, rt.raft.currentTerm));
  }

  // ---- Sequences of writes ----

  datatype Request = Request(data: Command, faults: Faults)

  /** The runtime after a sequence of client writes; None if one of them panicked. */
  function RunWrites(codec: Codec, rt: Runtime, requests: seq<Request>): Option<Runtime> {
    if requests == [] then Some(rt)
    else
      var last := requests[|requests| - 1];
      match RunWrites(codec, rt, requests[..|requests| - 1])
      case None => None
      case Some(rt') => HandleWrite(codec, rt', last.data, last.faults)
  }

  predicate IsRecorded(request: Request) {
    !request.faults.encodeFails && !request.faults.appendFails
  }

  predicate IsCompletable(request: Request) {
    IsRecorded(request) && !request.faults.rotateFails
  }

  /** How many of the requests reach the log. */
  function Recordings(requests: seq<Request>): nat {
    if requests == [] then 0
    else Recordings(requests[..|requests| - 1]) + (if IsRecorded(requests[|requests| - 1]) then 1 else 0)
  }

  ghost predicate EntryApplied(rt: Runtime, index: nat, data: Command) {
    exists p :: 0 <= p < |rt.applied| && rt.applied[p] == (index, data)
  }

  /** Reply k answers request k under its own operation id, and says Ok only if its own log entry was applied. */
  ghost predicate ReplyMatches(rt: Runtime, rt': Runtime, requests: seq<Request>, k: nat)
    requires k < |requests|
  {
    && |rt.replies| + k < |rt'.replies|
    && var reply := rt'.replies[|rt.replies| + k];
       && reply.operationId == rt.nextOperationId + k
       && (reply.error == None ==>
             IsRecorded(requests[k]) &&
             EntryApplied(rt', |rt.log| + Recordings(requests[..k]) + 1, requests[k].data))
  }

  lemma OkWriteIsApplied(codec: Codec, rt: Runtime, data: Command, f: Faults, rt': Runtime, reached: nat)
    requires RoundTrips(codec) && Wrote(codec, rt, data, f, rt', reached) && rt.raft.lastApplied <= |rt.log|
    ensures AnsweredOk(rt') ==> IsRecorded(Request(data, f)) && EntryApplied(rt', |rt.log| + 1, data)
    ensures rt.applied <= rt'.applied && rt.replies <= rt'.replies
    ensures |rt'.log| == |rt.log| + (if IsRecorded(Request(data, f)) then 1 else 0)
  {
    if AnsweredOk(rt') {
      var e := LogEntry(rt.raft.currentTerm, data);
      assert codec.decode(codec.encode(e)) == Some(e);
      assert CommandAt(codec, rt'.log, |rt'.log|) == data;
      assert rt'.applied[|rt'.applied| - 1] == (|rt'.log|, data);
    }
  }

  lemma RepliesStay(rt: Runtime, m: Runtime, rt': Runtime, requests: seq<Request>, k: nat)
    requires k < |requests| - 1
    requires ReplyMatches(rt, m, requests[..|requests| - 1], k)
    requires m.applied <= rt'.applied && m.replies <= rt'.replies
    ensures ReplyMatches(rt, rt', requests, k)
  {
    var data, index := requests[k].data, |rt.log| + Recordings(requests[..k]) + 1;
    assert requests[..|requests| - 1][..k] == requests[..k];
    if EntryApplied(m, index, data) {
      var p :| 0 <= p < |m.applied| && m.applied[p] == (index, data);
      assert rt'.applied[p] == (index, data);
    }
  }

  /** Every request so far has its own matching reply, nothing is left pending, and the log holds what was recorded. */
  ghost predicate AllAnswered(rt: Runtime, rt': Runtime, requests: seq<Request>) {
    && rt'.operations == rt.operations
    && rt'.nextOperationId == rt.nextOperationId + |requests|
    && rt.replies <= rt'.replies && |rt'.replies| == |rt.replies| + |requests|
    && |rt'.log| == |rt.log| + Recordings(requests)
    && forall k {:trigger ReplyMatches(rt, rt', requests, k)} ::
         0 <= k < |requests| ==> ReplyMatches(rt, rt', requests, k)
  }

  lemma WriteKeepsAnswers(codec: Codec, rt: Runtime, m: Runtime, rt': Runtime, requests: seq<Request>, reached: nat)
    requires requests != [] && AllAnswered(rt, m, requests[..|requests| - 1])
    requires var last := requests[|requests| - 1]; Wrote(codec, m, last.data, last.faults, rt', reached)
    requires RoundTrips(codec) && m.raft.lastApplied <= |m.log|
    ensures AllAnswered(rt, rt', requests)
  {
    var n := |requests| - 1;
    var before, last := requests[..n], requests[n];
    OkWriteIsApplied(codec, m, last.data, last.faults, rt', reached);
    assert last == Request(last.data, last.faults);
    forall k | 0 <= k < |requests|
      ensures ReplyMatches(rt, rt', requests, k)
    {
      if k < n {
        assert ReplyMatches(rt, m, before, k);
        RepliesStay(rt, m, rt', requests, k);
      }
    }
  }

  /**
   * Whatever fails, a sole leader never panics on a write, answers every write exactly once under a fresh operation
   * id, leaves nothing pending, and answers Ok only if its state machine has accepted the entry of that very write.
   */
  lemma {:induction false} EveryWriteAnsweredOnce(codec: Codec, rt: Runtime, requests: seq<Request>)
    returns (rt': Runtime)
    requires RoundTrips(codec) && RuntimeOk(codec, rt)
    ensures RunWrites(codec, rt, requests) == Some(rt') && RuntimeOk(codec, rt')
    ensures AllAnswered(rt, rt', requests)
  {
    if requests == [] {
      rt' := rt;
    } else {
      var last := requests[|requests| - 1];
      var m := EveryWriteAnsweredOnce(codec, rt, requests[..|requests| - 1]);
      var reached;
      rt', reached := WriteOutcome(codec, m, last.data, last.faults);
      WriteKeepsAnswers(codec, rt, m, rt', requests, reached);
    }
  }

  // ---- Order of application with a state machine that may fail at any call ----

  ghost predicate Covered(trace: seq<(nat, Command)>, index: nat) {
    exists q :: 0 <= q < |trace| && trace[q].0 == index
  }

  ghost predicate CoveredBelow(trace: seq<(nat, Command)>, index: nat) {
    forall j {:trigger Covered(trace, j)} :: 1 <= j < index ==> Covered(trace, j)
  }

  /** Application p is of a real entry, and every smaller index was applied before it. */
  ghost predicate InTurn(codec: Codec, log: seq<Record>, trace: seq<(nat, Command)>, p: nat)
    requires p < |trace|
  {
    var (index, command) := trace[p];
    && 1 <= index <= |log| && command == CommandAt(codec, log, index)
    && CoveredBelow(trace[..p], index)
  }

  /** Every application came in its turn, and everything up to last_applied has been applied. */
  ghost predicate Traced(codec: Codec, rt: Runtime) {
    && (forall p {:trigger InTurn(codec, rt.log, rt.applied, p)} ::
          0 <= p < |rt.applied| ==> InTurn(codec, rt.log, rt.applied, p))
    && CoveredBelow(rt.applied, rt.raft.lastApplied + 1)
  }

  lemma CoveredLonger(trace: seq<(nat, Command)>, longer: seq<(nat, Command)>, index: nat)
    requires trace <= longer && CoveredBelow(trace, index)
    ensures CoveredBelow(longer, index)
  {
    forall j | 1 <= j < index
      ensures Covered(longer, j)
    {
      assert Covered(trace, j);
      var q :| 0 <= q < |trace| && trace[q].0 == j;
      assert longer[q].0 == j;
    }
  }

  /** A run of entries behind a covered trace extends the cover by that run. */
  lemma RunCovers(codec: Codec, log: seq<Record>, trace: seq<(nat, Command)>, from: nat, to: nat)
    requires 1 <= from <= to + 1 && to <= |log| && CoveredBelow(trace, from)
    ensures CoveredBelow(trace + Commands(codec, log, from, to), to + 1)
  {
    var longer := trace + Commands(codec, log, from, to);
    CoveredLonger(trace, longer, from);
    forall j | 1 <= j <= to
      ensures Covered(longer, j)
    {
      if j >= from {
        assert longer[|trace| + j - from].0 == j;
      } else {
        assert Covered(longer, j);
      }
    }
  }

  lemma InTurnLonger(codec: Codec, log: seq<Record>, log': seq<Record>, trace: seq<(nat, Command)>, longer: seq<(nat,
                     Command)>, p: nat)
    requires p < |trace| && log <= log' && trace <= longer && InTurn(codec, log, trace, p)
    ensures InTurn(codec, log', longer, p)
  {
    assert longer[..p] == trace[..p];
  }

  lemma WriteKeepsTrace(codec: Codec, rt: Runtime, data: Command, f: Faults, rt': Runtime, reached: nat)
    requires Wrote(codec, rt, data, f, rt', reached) && Traced(codec, rt) && rt.raft.lastApplied <= |rt.log|
    ensures Traced(codec, rt')
  {
    var from := rt.raft.lastApplied + 1;
    if !f.encodeFails && !f.appendFails && !f.rotateFails {
      RunCovers(codec, rt'.log, rt.applied, from, reached);
      CoveredLonger(rt.applied, rt'.applied, from);
    }
    forall p | 0 <= p < |rt'.applied|
      ensures InTurn(codec, rt'.log, rt'.applied, p)
    {
      if p < |rt.applied| {
        assert InTurn(codec, rt.log, rt.applied, p);
        InTurnLonger(codec, rt.log, rt'.log, rt.applied, rt'.applied, p);
      } else {
        var index := rt'.applied[p].0;
        RunCovers(codec, rt'.log, rt.applied, from, index - 1);
        assert rt'.applied[..p] == rt.applied + Commands(codec, rt'.log, from, index - 1);
      }
    }
  }

  /** Whatever fails, no entry is applied before all smaller ones, and last_applied never passes an unapplied entry. */
  lemma {:induction false} AppliedInTurn(codec: Codec, rt: Runtime, requests: seq<Request>) returns (rt': Runtime)
    requires RoundTrips(codec) && RuntimeOk(codec, rt) && Traced(codec, rt)
    ensures RunWrites(codec, rt, requests) == Some(rt') && RuntimeOk(codec, rt') && Traced(codec, rt')
  {
    if requests == [] {
      rt' := rt;
    } else {
      var last := requests[|requests| - 1];
      var m := AppliedInTurn(codec, rt, requests[..|requests| - 1]);
      var reached;
      rt', reached := WriteOutcome(codec, m, last.data, last.faults);
      WriteKeepsTrace(codec, m, last.data, last.faults, rt', reached);
    }
  }

  // ---- A state machine that never fails ----

  /** Exactly the entries 1..last_applied have been applied, once each and in order. */
  predicate InOrder(codec: Codec, rt: Runtime) {
    rt.raft.lastApplied <= |rt.log| && rt.applied == Commands(codec, rt.log, 1, rt.raft.lastApplied)
  }

  lemma CommandsJoin(codec: Codec, log: seq<Record>, log': seq<Record>, mid: nat, to: nat)
    requires log <= log' && mid <= to <= |log'| && mid <= |log|
    ensures Commands(codec, log, 1, mid) + Commands(codec, log', mid + 1, to) == Commands(codec, log', 1, to)
  {
  }

  /**
   * With a state machine that accepts everything, the applied commands are the log entries 1..last_applied in order,
   * without gap or repeat. Whenever the latest write was answered Ok, that is the whole log: also right after a
   * restart with a fresh state machine and last_applied at 0, when the first completed write replays every entry.
   */
  lemma {:induction false} AppliedIsLogPrefix(codec: Codec, rt: Runtime, requests: seq<Request>) returns (rt': Runtime)
    requires RoundTrips(codec) && RuntimeOk(codec, rt) && InOrder(codec, rt)
    requires forall k :: 0 <= k < |requests| ==> requests[k].faults.applyFails == {}
    ensures RunWrites(codec, rt, requests) == Some(rt') && RuntimeOk(codec, rt') && InOrder(codec, rt')
    ensures requests != [] && AnsweredOk(rt') ==> rt'.applied == Commands(codec, rt'.log, 1, |rt'.log|)
    ensures rt.log <= rt'.log
  {
    if requests == [] {
      rt' := rt;
    } else {
      var n := |requests| - 1;
      var last := requests[n];
      var m := AppliedIsLogPrefix(codec, rt, requests[..n]);
      var reached;
      rt', reached := WriteOutcome(codec, m, last.data, last.faults);
      assert last.faults.applyFails == {};
      WriteKeepsOrder(codec, m, last, rt', reached);
    }
  }

  lemma WriteKeepsOrder(codec: Codec, rt: Runtime, request: Request, rt': Runtime, reached: nat)
    requires Wrote(codec, rt, request.data, request.faults, rt', reached) && InOrder(codec, rt)
    requires request.faults.applyFails == {}
    ensures InOrder(codec, rt') && rt.log <= rt'.log
    ensures AnsweredOk(rt') ==> rt'.applied == Commands(codec, rt'.log, 1, |rt'.log|)
  {
    if IsRecorded(request) {
      var to := if request.faults.rotateFails then rt.raft.lastApplied else reached;
      CommandsJoin(codec, rt.log, rt'.log, rt.raft.lastApplied, to);
    }
  }

  lemma OrderedEntryApplied(codec: Codec, rt: Runtime, index: nat, e: LogEntry)
    requires RoundTrips(codec) && rt.applied == Commands(codec, rt.log, 1, |rt.log|)
    requires 1 <= index <= |rt.log| && rt.log[index - 1] == codec.encode(e)
    ensures EntryApplied(rt, index, e.command)
  {
    assert codec.decode(codec.encode(e)) == Some(e);
    assert rt.applied[index - 1] == (index, e.command);
  }

  /** A write that is answered with an error because the next segment could not be opened is applied all the same. */
  lemma RefusedWriteIsApplied(codec: Codec, rt: Runtime, refused: Request, later: Request)
    returns (m: Runtime, rt': Runtime)
    requires RoundTrips(codec) && RuntimeOk(codec, rt) && InOrder(codec, rt)
    requires IsRecorded(refused) && refused.faults.rotateFails && IsCompletable(later)
    requires refused.faults.applyFails == later.faults.applyFails == {}
    ensures HandleWrite(codec, rt, refused.data, refused.faults) == Some(m) && !AnsweredOk(m)
    ensures HandleWrite(codec, m, later.data, later.faults) == Some(rt') && AnsweredOk(rt')
    ensures EntryApplied(rt', |rt.log| + 1, refused.data) && EntryApplied(rt', |rt.log| + 2, later.data)
  {
    var reached, reached';
    m, reached := WriteOutcome(codec, rt, refused.data, refused.faults);
    WriteKeepsOrder(codec, rt, refused, m, reached);
    rt', reached' := WriteOutcome(codec, m, later.data, later.faults);
    WriteKeepsOrder(codec, m, later, rt', reached');
    OrderedEntryApplied(codec, rt', |rt.log| + 1, LogEntry(rt.raft.currentTerm, refused.data));
    OrderedEntryApplied(codec, rt', |rt.log| + 2, LogEntry(m.raft.currentTerm, later.data));
  }

  // ---- Starting again ----

  /** What `Runtime::new` builds over a log whose offsets start at 1, with a fresh state machine. */
  function Fresh(id: NodeId, voters: set<NodeId>, log: seq<Record>, stateFile: seq<Byte>, hard: HardState): Runtime {
    Runtime(InitialNode(id, voters, |log| + 1, hard), log, stateFile, [], 1, map[], [])
  }

  /** Leadership set from outside: a sole voter receives no vote response that would make it win. */
  function Promoted(rt: Runtime): Runtime {
    rt.(raft := rt.raft.(role := Leader))
  }

  lemma ReplayOutcome(codec: Codec, rt: Runtime, data: Command, f: Faults, rt': Runtime, reached: nat)
    requires RoundTrips(codec) && Wrote(codec, rt, data, f, rt', reached)
    requires rt.raft.lastApplied == 0 && rt.applied == []
    ensures AnsweredOk(rt') ==> rt'.applied == Commands(codec, rt.log, 1, |rt.log|) + [(|rt.log| + 1, data)]
    ensures AnsweredOk(rt') <==>
            IsCompletable(Request(data, f)) && forall i :: 1 <= i <= |rt.log| + 1 ==> i !in f.applyFails
  {
    if AnsweredOk(rt') {
      var e := LogEntry(rt.raft.currentTerm, data);
      assert codec.decode(codec.encode(e)) == Some(e);
      assert CommandAt(codec, rt'.log, |rt'.log|) == data;
    }
  }

  /**
   * A sole voter started over an existing log and made leader: the first write is answered Ok exactly if it is
   * recorded and no application fails, and then the fresh state machine has been given every entry of the log
   * in order, followed by the new command.
   */
  lemma FirstWriteReplays(codec: Codec, id: NodeId, log: seq<Record>, file: seq<Byte>, hard: HardState, data: Command,
                          f: Faults)
      returns (rt': Runtime)
    requires RoundTrips(codec) && Decodable(codec, log)
    ensures HandleWrite(codec, Promoted(Fresh(id, {id}, log, file, hard)), data, f) == Some(rt')
    ensures AnsweredOk(rt') ==> rt'.applied == Commands(codec, log, 1, |log|) + [(|log| + 1, data)]
    ensures AnsweredOk(rt') <==>
            IsCompletable(Request(data, f)) && forall i :: 1 <= i <= |log| + 1 ==> i !in f.applyFails
  {
    var rt := Promoted(Fresh(id, {id}, log, file, hard));
    var reached;
    rt', reached := WriteOutcome(codec, rt, data, f);
    ReplayOutcome(codec, rt, data, f, rt', reached);
  }

  // ---- The hard state on disk ----

  /** What an effect asks to save can be written and read back: a u64 term and a String name that is not empty. */
  predicate Savable(outcome: Outcome) {
    match outcome
    case Done(Some(SendRequestVotes(hard, _, _))) => Representable(hard) && hard.votedFor != Some(NodeId([]))
    case Done(Some(SendRequestVoteResponse(Some(hard), _, _))) =>
      Representable(hard) && hard.votedFor != Some(NodeId([]))
    case _ => true
  }

  lemma ExecuteSaves(codec: Codec, rt: Runtime, effect: Effect, f: Faults, saved: HardState)
    requires Decoded(rt.stateFile) == Loaded(saved) && Savable(Done(Some(effect)))
    ensures var rt' := Execute(codec, rt, effect, f).rt;
            && rt'.raft == rt.raft
            && Decoded(rt'.stateFile) == Loaded(if f.persistFails then saved else SavedAfter(saved, Done(Some(effect))))
  {
    match effect {
      case SendRequestVotes(hard, _, _) => SavedStateLoads(hard);
      case SendRequestVoteResponse(Some(hard), _, _) => SavedStateLoads(hard);
      case _ =>
    }
  }

  /** The cluster action that one turn of the runtime amounts to. */
  function ActionOf(n: Node, id: NodeId, ev: Event, f: Faults): Action {
    if f.persistFails && AsksToSave(Handle(n, ev).outcome) then FailedSave(id, ev) else Deliver(id, ev)
  }

  /**
   * The runtime is what the cluster model says a node is: one turn changes node and hard-state file as the cluster's
   * step changes node and saved state, also if saving fails.
   */
  lemma TurnIsClusterStep(codec: Codec, rt: Runtime, ev: Event, f: Faults, c: Cluster, id: NodeId, t: Transition)
    requires id in c.nodes && id in c.saved && c.nodes[id] == rt.raft && t == Handle(rt.raft, ev)
    requires Decoded(rt.stateFile) == Loaded(c.saved[id]) && Savable(t.outcome)
    ensures var rt', c' := Turn(codec, rt, ev, f).rt, Next(c, ActionOf(rt.raft, id, ev, f));
            c'.nodes[id] == rt'.raft && Decoded(rt'.stateFile) == Loaded(c'.saved[id])
  {
    TurnSaves(codec, rt, ev, f, t, c.saved[id]);
  }

  lemma TurnSaves(codec: Codec, rt: Runtime, ev: Event, f: Faults, t: Transition, saved: HardState)
    requires t == Handle(rt.raft, ev) && Decoded(rt.stateFile) == Loaded(saved) && Savable(t.outcome)
    ensures var rt' := Turn(codec, rt, ev, f).rt;
            && rt'.raft == t.node
            && Decoded(rt'.stateFile) ==
                 Loaded(if f.persistFails && AsksToSave(t.outcome) then saved else SavedAfter(saved, t.outcome))
  {
    if t.outcome.Done? && t.outcome.effect.Some? {
      ExecuteSaves(codec, rt.(raft := t.node), t.outcome.effect.value, f, saved);
    }
  }

  lemma FreshIsRestarted(c: Cluster, id: NodeId, log: seq<Record>, file: seq<Byte>)
    requires id in c.nodes && id in c.saved && Decoded(file) == Loaded(c.saved[id])
    ensures Fresh(id, c.nodes[id].voters.Keys, log, file, Decoded(file).state).raft
            == Next(c, Crash(id, None, |log| + 1)).nodes[id]
  {
  }

  /** A crash between saving and sending leaves the node as a crash after sending does. */
  lemma CrashInFlight(c: Cluster, id: NodeId, ev: Event, nextOffset: nat, c': Cluster)
    requires id in c.nodes && id in c.saved && c' == Next(c, Deliver(id, ev))
    ensures Next(c, Crash(id, Some(ev), nextOffset)).nodes[id] == Next(c', Crash(id, None, nextOffset)).nodes[id]
    ensures Next(c, Crash(id, Some(ev), nextOffset)).saved == c'.saved
  {
    HandleAdvances(c.nodes[id], ev);
  }

  /**
   * A node started again from the file that a turn leaves is the one that the cluster's crash step puts in its place.
   */
  lemma RestartIsCrashStep(codec: Codec, rt: Runtime, ev: Event, f: Faults, c: Cluster, id: NodeId, log: seq<Record>,
                           rt': Runtime, c': Cluster)
    requires id in c.nodes && id in c.saved && c.nodes[id] == rt.raft
    requires Decoded(rt.stateFile) == Loaded(c.saved[id]) && Savable(Handle(rt.raft, ev).outcome)
    requires rt' == Turn(codec, rt, ev, f).rt && c' == Next(c, ActionOf(rt.raft, id, ev, f))
    ensures Decoded(rt'.stateFile).Loaded? && id in c'.nodes && id in c'.saved
    ensures Fresh(id, rt'.raft.voters.Keys, log, rt'.stateFile, Decoded(rt'.stateFile).state).raft
            == Next(c', Crash(id, None, |log| + 1)).nodes[id]
  {
    TurnIsClusterStep(codec, rt, ev, f, c, id, Handle(rt.raft, ev));
    FreshIsRestarted(c', id, log, rt'.stateFile);
  }

  /** A stop after a successful save and before the message is sent is the cluster's crash with the event in flight. */
  lemma StopBeforeSendIsCrash(codec: Codec, rt: Runtime, ev: Event, f: Faults, c: Cluster, id: NodeId, log: seq<Record>,
                              rt': Runtime, c': Cluster)
    requires id in c.nodes && id in c.saved && c.nodes[id] == rt.raft && !f.persistFails
    requires Decoded(rt.stateFile) == Loaded(c.saved[id]) && Savable(Handle(rt.raft, ev).outcome)
    requires rt' == Turn(codec, rt, ev, f).rt && c' == Next(c, Crash(id, Some(ev), |log| + 1))
    ensures Decoded(rt'.stateFile) == Loaded(c'.saved[id])
    ensures Fresh(id, rt'.raft.voters.Keys, log, rt'.stateFile, Decoded(rt'.stateFile).state).raft == c'.nodes[id]
    ensures c'.sent == c.sent && c'.ballots == c.ballots
  {
    var delivered := Next(c, Deliver(id, ev));
    RestartIsCrashStep(codec, rt, ev, f, c, id, log, rt', delivered);
    TurnIsClusterStep(codec, rt, ev, f, c, id, Handle(rt.raft, ev));
    CrashInFlight(c, id, ev, |log| + 1, delivered);
  }
}
