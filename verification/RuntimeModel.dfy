/**
 * The runtime of `src/raft/runtime.rs` as a value: the drive loop between the core and the executor, with the log
 * as the plain sequence of records that the segmented log stands for, and a state machine that may refuse any command.
 */
module RuntimeModel {
  import opened Bytes
  import opened RaftTypes
  import opened RaftCore
  import opened LogStore
  import opened HardStateStorage

  type Command = seq<Byte>

  datatype LogEntry = LogEntry(term: nat, command: Command)

  /** Encoding and decoding of log entries, which the runtime takes from a library. */
  datatype Codec = Codec(encode: LogEntry -> Record, decode: Record -> Option<LogEntry>)

  ghost predicate RoundTrips(codec: Codec) {
    forall e :: codec.decode(codec.encode(e)) == Some(e)
  }

  /**
   * What goes wrong while one message is handled: saving, encoding, appending to the log, opening the next segment
   * after the append, applying some entries.
   */
  datatype Faults =
    Faults(persistFails: bool, encodeFails: bool, appendFails: bool, rotateFails: bool, applyFails: set<nat>)

  /** An operation that waits for its reply; a write gives up its command when it is appended. */
  datatype Operation = WriteOperation(data: Option<Command>) | VoteOperation | AppendOperation

  /** `error` is None for Ok; `response` is what an append request is answered with. */
  datatype Reply = Reply(operationId: OperationId, error: Option<Error>, response: Option<AppendResponse>)

  /**
   * `stateFile` holds the saved hard state; `applied` records every command the state machine accepted, with its log
   * index; log indexes start at 1.
   */
  datatype Runtime = Runtime(
    raft: Node,
    log: seq<Record>,
    stateFile: seq<Byte>,
    applied: seq<(nat, Command)>,
    nextOperationId: OperationId,
    operations: map<OperationId, Operation>,
    replies: seq<Reply>)

  datatype Executed =
    | Continue(rt: Runtime, next: Option<Event>)
    | Abort(rt: Runtime, error: Error)
    | Panic(rt: Runtime)

  datatype ApplyResult = ApplyResult(applied: seq<(nat, Command)>, error: Option<Error>)

  function ReadEntry(log: seq<Record>, index: nat): Option<Record> {
    if 1 <= index <= |log| then Some(log[index - 1]) else None
  }

  /** The apply loop over index..=through. */
  function ApplyFrom(codec: Codec, log: seq<Record>, applied: seq<(nat, Command)>, index: nat, through: nat,
                     fails: set<nat>): ApplyResult
    decreases through + 1 - index
  {
    if index > through then ApplyResult(applied, None)
    else
      match ReadEntry(log, index)
      case None => ApplyResult(applied, Some(ReadCommittedEntryFailed))
      case Some(record) =>
        match codec.decode(record)
        case None => ApplyResult(applied, Some(EntryDeserialisationFailed))
        case Some(entry) =>
          if index in fails then ApplyResult(applied, Some(ApplyCommittedEntryFailed))
          else ApplyFrom(codec, log, applied + [(index, entry.command)], index + 1, through, fails)
  }

  /** `persist_hard_state`, and then the `todo!()` that stands for sending. */
  function Persist(rt: Runtime, hard: HardState, f: Faults): Executed {
    if f.persistFails then Abort(rt, PersistStateFailed) else Panic(rt.(stateFile := Encoded(hard)))
  }

  /** The AppendLocal arm: take the command out of the operation, encode it and append it. */
  function AppendEntry(codec: Codec, rt: Runtime, op: OperationId, term: nat, f: Faults): (r: Executed)
    ensures r.Continue? && r.next.Some? ==> r.next.value.LocalEntriesAppended?
  {
    if op !in rt.operations || !rt.operations[op].WriteOperation? || rt.operations[op].data == None then Panic(rt)
    else
      var record := codec.encode(LogEntry(term, rt.operations[op].data.value));
      var rt' := rt.(operations := rt.operations[op := WriteOperation(None)]);
      if f.encodeFails then Abort(rt', EntrySerialisationFailed)
      else if f.appendFails then Abort(rt', AppendFailed)
      else if f.rotateFails then Abort(rt'.(log := rt.log + [record]), AppendFailed)
      else Continue(rt'.(log := rt.log + [record]), Some(LocalEntriesAppended(op, |rt.log| + 1, term)))
  }

  /** The ApplyCommitted arm: apply everything behind last_applied up to `through`. */
  function ApplyEntries(codec: Codec, rt: Runtime, op: OperationId, through: nat, f: Faults): (r: Executed)
    ensures r.Continue? && r.next.Some? ==> r.next.value.EntriesApplied?
  {
    var result := ApplyFrom(codec, rt.log, rt.applied, rt.raft.lastApplied + 1, through, f.applyFails);
    var rt' := rt.(applied := result.applied);
    if result.error == None then Continue(rt', Some(EntriesApplied(op, through))) else Abort(rt', result.error.value)
  }

  /** Take the operation out and answer it with `reply`; it must be of the right kind. */
  function Settle(rt: Runtime, op: OperationId, kind: bool, reply: Reply): (r: Executed)
    ensures r.Continue? ==> r.next == None
  {
    if op !in rt.operations then Panic(rt)
    else
      var rt' := rt.(operations := rt.operations - {op});
      if !kind then Panic(rt') else Continue(rt'.(replies := rt.replies + [reply]), None)
  }

  predicate IsWrite(rt: Runtime, op: OperationId) {
    op in rt.operations && rt.operations[op].WriteOperation?
  }

  predicate IsAppend(rt: Runtime, op: OperationId) {
    op in rt.operations && rt.operations[op].AppendOperation?
  }

  /** `Runtime::execute`; the arms that end in `todo!()` panic. */
  function Execute(codec: Codec, rt: Runtime, effect: Effect, f: Faults): (r: Executed)
    ensures r.Continue? && r.next.Some? ==>
              (effect.AppendLocal? && r.next.value.LocalEntriesAppended?) ||
              (effect.ApplyCommitted? && r.next.value.EntriesApplied?)
  {
    match effect
    case SendRequestVotes(hard, _, _) => Persist(rt, hard, f)
    case SendRequestVoteResponse(Some(hard), _, _) => Persist(rt, hard, f)
    case SendAppendEntries(_, _) => Continue(rt, None)
    case ApplyCommitted(op, through) =>
      ApplyEntries(codec, rt, op, through, f)
    case AppendLocal(op, term, _) =>
      AppendEntry(codec, rt, op, term, f)
    case CompleteOperation(op) => Settle(rt, op, IsWrite(rt, op), Reply(op, None, None))
    case RejectAppendEntries(op, _, response) => Settle(rt, op, IsAppend(rt, op), Reply(op, None, Some(response)))
    case _ => Panic(rt)
  }

  /** Each turn of the drive loop moves down: Write, then LocalEntriesAppended, then EntriesApplied. */
  function Rank(ev: Event): nat {
    match ev
    case Write(_) => 2
    case EntriesApplied(_, _) => 0
    case _ => 1
  }

  /** What each event may lead to; with Rank, that the drive loop terminates. */
  lemma EffectRank(n: Node, ev: Event)
    ensures var o := Handle(n, ev).outcome;
            o.Done? && o.effect.Some? ==>
              && (o.effect.value.AppendLocal? ==>
                    ev == Write(o.effect.value.operationId) && o.effect.value.term == n.currentTerm)
              && (o.effect.value.ApplyCommitted? ==> Rank(ev) == 1)
  {
  }

  datatype Driven = Finished(rt: Runtime) | Errored(rt: Runtime, error: Error) | Crashed(rt: Runtime)

  /** One turn of the loop: hand the event to the core and execute what it asks for. */
  function Turn(codec: Codec, rt: Runtime, ev: Event, f: Faults): (r: Executed)
    ensures r.Continue? && r.next.Some? ==> Rank(r.next.value) < Rank(ev)
  {
    EffectRank(rt.raft, ev);
    var t := Handle(rt.raft, ev);
    var rt' := rt.(raft := t.node);
    match t.outcome
    case Panicked => Panic(rt')
    case Failed(error) => Abort(rt', error)
    case Done(None) => Continue(rt', None)
    case Done(Some(effect)) => Execute(codec, rt', effect, f)
  }

  function Drive(codec: Codec, rt: Runtime, ev: Event, f: Faults): Driven
    decreases Rank(ev)
  {
    match Turn(codec, rt, ev, f)
    case Panic(rt') => Crashed(rt')
    case Abort(rt', error) => Errored(rt', error)
    case Continue(rt', None) => Finished(rt')
    case Continue(rt', Some(next)) => Drive(codec, rt', next, f)
  }

  function FailOperation(rt: Runtime, op: OperationId, error: Error): Runtime {
    if op !in rt.operations then rt
    else rt.(operations := rt.operations - {op}, replies := rt.replies + [Reply(op, Some(error), None)])
  }

  /** A client write takes the next operation id and waits under it. */
  function Registered(rt: Runtime, data: Command): Runtime {
    rt.(nextOperationId := rt.nextOperationId + 1,
        operations := rt.operations[rt.nextOperationId := WriteOperation(Some(data))])
  }

  /** How `handle_message` ends; None stands for a panic. */
  function Concluded(d: Driven, op: OperationId): Option<Runtime> {
    match d
    case Finished(rt) => Some(rt)
    case Errored(rt, error) => Some(FailOperation(rt, op, error))
    case Crashed(_) => None
  }

  /** `handle_message` for a client write. */
  function HandleWrite(codec: Codec, rt: Runtime, data: Command, f: Faults): Option<Runtime> {
    Concluded(Drive(codec, Registered(rt, data), Write(rt.nextOperationId), f), rt.nextOperationId)
  }
}
