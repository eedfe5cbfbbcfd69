/**
 * The runtime object of `src/raft/runtime.rs`, which owns a Raft core, a log of segments and a hard-state file.
 * Its methods do to the bytes on disk what the runtime model does to a plain sequence of records.
 */
module RuntimeDriver {
  import opened Bytes
  import opened RaftTypes
  import opened RaftCore
  import opened NodeRuns
  import opened LogStore
  import opened LogIndex
  import opened LogSegment
  import opened SegmentedLog
  import opened LogHistories
  import opened DiskLog
  import opened HardStateStorage
  import opened RuntimeModel
  import opened RuntimeSafety

  predicate StartsAt(st: LogState, base: nat) {
    st.segs != [] && st.segs[0].base == base
  }

  /**
   * A sound log over a tidy directory that starts at offset 1 and holds exactly `records`, as LogHoldsIff says
   * outright. It is put in terms of the first base so that the verifier looks inside only where that base is named.
   */
  ghost predicate LogHolds(st: LogState, cfg: Config, records: seq<Record>) {
    && st.segs != []
    && forall base {:trigger StartsAt(st, base)} ::
         StartsAt(st, base) ==> base == 1 && StateOk(st, cfg) && AllRecords(st.segs, cfg) == records
  }

  lemma LogHoldsIff(st: LogState, cfg: Config, records: seq<Record>)
    ensures LogHolds(st, cfg, records) <==>
            StateOk(st, cfg) && st.segs[0].base == 1 && AllRecords(st.segs, cfg) == records
    ensures LogHolds(st, cfg, records) ==> ReadyState(st, cfg)
  {
    if st.segs != [] {
      assert StartsAt(st, st.segs[0].base);
    }
    if StateOk(st, cfg) {
      SoundIsReady(st.segs, cfg);
    }
  }

  ghost predicate Serves(log: Log, records: seq<Record>)
    reads log
  {
    log.activeIndex == |log.segments| - 1 && LogHolds(log.Value(), log.cfg, records)
  }

  /** Whether handling goes on, as `Result<Option<Event>>`, or stops in a panic. */
  datatype Progressed = Next(event: Option<Event>) | Stopped(error: Error) | Halted

  /** The result of a whole drive. */
  datatype DriveResult = Drove | DriveFailed(error: Error) | DrivePanicked

  function ExecutedAs(rt: Runtime, p: Progressed): Executed {
    match p
    case Next(event) => Continue(rt, event)
    case Stopped(error) => Abort(rt, error)
    case Halted => Panic(rt)
  }

  function DrivenAs(rt: Runtime, r: DriveResult): Driven {
    match r
    case Drove => Finished(rt)
    case DriveFailed(error) => Errored(rt, error)
    case DrivePanicked => Crashed(rt)
  }

  method FetchRecord(log: Log, index: nat, ghost records: seq<Record>) returns (r: Option<Record>)
    requires Serves(log, records)
    ensures r == ReadEntry(records, index)
  {
    LogHoldsIff(log.Value(), log.cfg, records);
    ReadRefines(log.segments, log.cfg, index);
    r := log.Read(index);
  }

  method AppendRecord(log: Log, record: Record, rotateFails: bool, ghost records: seq<Record>)
    returns (index: Option<nat>)
    requires Serves(log, records) && Fits(Last(log.segments), record)
    modifies log
    ensures var room, stuck := old(HasRoom(Last(log.segments).index)), rotateFails && old(Fills(log, record));
            && Serves(log, if room then records + [record] else records)
            && index == if room && !stuck then Some(|records| + 1) else None
  {
    ghost var room := HasRoom(Last(log.segments).index);
    LogHoldsIff(log.Value(), log.cfg, records);
    AppendRefines(log.Value(), log.cfg, record);
    AppendUnrotatedRefines(log.Value(), log.cfg, record);
    index := log.Append(record, rotateFails);
    LogHoldsIff(log.Value(), log.cfg, if room then records + [record] else records);
  }

  /** The record would fill the last segment. */
  predicate Fills(log: Log, record: Record)
    reads log
    requires log.segments != []
  {
    var s := Last(log.segments);
    s.base <= s.next && IsMaxed(AppendSeg(s, record), log.cfg)
  }

  class LiveRuntime {
    const codec: Codec
    const raft: Raft
    const log: Log
    const storage: Storage
    var applied: seq<(nat, Command)>
    var nextOperationId: OperationId
    var operations: map<OperationId, Operation>
    var replies: seq<Reply>
    ghost var records: seq<Record>

    /** The log is sound, starts at offset 1 and holds `records`. */
    ghost predicate Valid()
      reads this, log
    {
      Serves(log, records)
    }

    /** The runtime model's state: the log is the sequence of records that the segments hold. */
    ghost function Value(): Runtime
      reads this, raft, storage
    {
      Runtime(raft.Value(), records, storage.file, applied, nextOperationId, operations, replies)
    }

    /** Appending also fails when the last segment has no free slot; opening the next one only if it is due. */
    function WithLog(f: Faults, record: Record): Faults
      reads log
      requires log.segments != []
    {
      f.(appendFails := f.appendFails || !HasRoom(Last(log.segments).index),
         rotateFails := f.rotateFails && Fills(log, record))
    }

    /** The record that an AppendLocal for `op` would write. */
    function RecordOf(op: OperationId, term: nat): Record
      reads this
    {
      if op in operations && operations[op].WriteOperation? && operations[op].data != None then
        codec.encode(LogEntry(term, operations[op].data.value))
      else []
    }

    constructor (codec: Codec, id: NodeId, voters: set<NodeId>, log: Log, storage: Storage, ghost records: seq<Record>)
      requires Serves(log, records)
      requires id in voters && Decoded(storage.file).Loaded?
      ensures Valid() && this.codec == codec && this.log == log && this.storage == storage && fresh(raft)
      ensures Value() == Fresh(id, voters, records, storage.file, Decoded(storage.file).state)
    {
      var loaded := storage.LoadState();
      LogHoldsIff(log.Value(), log.cfg, records);
      var nextIndex := log.NextOffset();
      NextOffsetIs(log.segments, log.cfg);
      this.codec, this.log, this.storage := codec, log, storage;
      raft := new Raft(InitialNode(id, voters, nextIndex, loaded.state));
      applied, nextOperationId, operations, replies := [], 1, map[], [];
      this.records := records;
    }

    /** The apply loop; an error leaves the entries before it applied. */
    method ApplyCommitted(op: OperationId, through: nat, f: Faults) returns (p: Progressed)
      requires Valid()
      modifies this`applied
      ensures ExecutedAs(Value(), p) == ApplyEntries(codec, old(Value()), op, through, f)
    {
      var fails := f.applyFails;
      var index := raft.lastApplied + 1;
      while index <= through
        invariant ApplyFrom(codec, records, applied, index, through, fails)
                  == ApplyFrom(codec, records, old(applied), raft.lastApplied + 1, through, fails)
      {
        var record := FetchRecord(log, index, records);
        if record == None {
          return Stopped(ReadCommittedEntryFailed);
        }
        var entry := codec.decode(record.value);
        if entry == None {
          return Stopped(EntryDeserialisationFailed);
        }
        if index in fails {
          return Stopped(ApplyCommittedEntryFailed);
        }
        applied := applied + [(index, entry.value.command)];
        index := index + 1;
      }
      return Next(Some(EntriesApplied(op, through)));
    }

    /** The record for `op` fits a u64 store size, and these are the faults that its append meets. */
    predicate Expects(op: OperationId, term: nat, f: Faults, faults: Faults)
      reads this, log
    {
      log.segments != [] ==>
        Fits(Last(log.segments), RecordOf(op, term)) && WithLog(f, RecordOf(op, term)) == faults
    }

    method AppendLocal(op: OperationId, term: nat, f: Faults, ghost faults: Faults) returns (p: Progressed)
      requires Valid() && Expects(op, term, f, faults)
      modifies this`operations, this`records, log
      ensures Valid()
      ensures ExecutedAs(Value(), p) == AppendEntry(codec, old(Value()), op, term, faults)
    {
      if op !in operations || !operations[op].WriteOperation? || operations[op].data == None {
        return Halted;
      }
      var record := codec.encode(LogEntry(term, operations[op].data.value));
      operations := operations[op := WriteOperation(None)];
      if f.encodeFails {
        return Stopped(EntrySerialisationFailed);
      }
      if f.appendFails {
        return Stopped(AppendFailed);
      }
      ghost var room := HasRoom(Last(log.segments).index);
      var index := AppendRecord(log, record, f.rotateFails, records);
      records := if room then records + [record] else records;
      if index == None {
        return Stopped(AppendFailed);
      }
      return Next(Some(LocalEntriesAppended(op, index.value, term)));
    }

    method SettleOperation(op: OperationId, kind: bool, reply: Reply) returns (p: Progressed)
      requires Valid()
      modifies this`operations, this`replies
      ensures ExecutedAs(Value(), p) == Settle(old(Value()), op, kind, reply)
    {
      if op !in operations {
        return Halted;
      }
      operations := operations - {op};
      if !kind {
        return Halted;
      }
      replies := replies + [reply];
      return Next(None);
    }

    method PersistHardState(hard: HardState, f: Faults) returns (p: Progressed)
      requires Valid()
      modifies storage
      ensures ExecutedAs(Value(), p) == Persist(old(Value()), hard, f)
    {
      if f.persistFails {
        return Stopped(PersistStateFailed);
      }
      storage.SaveState(hard);
      return Halted;
    }

    /** Every effect does to the segments and files what the model does to its sequence of records. */
    method ExecuteEffect(effect: Effect, f: Faults, ghost faults: Faults) returns (p: Progressed)
      requires Valid() && (effect.AppendLocal? ==> Expects(effect.operationId, effect.term, f, faults))
      requires faults.(appendFails := f.appendFails, rotateFails := f.rotateFails) == f
      modifies this, log, storage
      ensures Valid()
      ensures ExecutedAs(Value(), p) == Execute(codec, old(Value()), effect, faults)
    {
      match effect {
        case SendRequestVotes(hard, _, _) =>
          p := PersistHardState(hard, f);
        case SendRequestVoteResponse(Some(hard), _, _) =>
          p := PersistHardState(hard, f);
        case SendAppendEntries(_, _) =>
          return Next(None);
        case ApplyCommitted(op, through) =>
          p := ApplyCommitted(op, through, f);
        case AppendLocal(op, term, _) =>
          p := AppendLocal(op, term, f, faults);
        case CompleteOperation(op) =>
          var kind := op in operations && operations[op].WriteOperation?;
          p := SettleOperation(op, kind, Reply(op, None, None));
        case RejectAppendEntries(op, _, response) =>
          var kind := op in operations && operations[op].AppendOperation?;
          p := SettleOperation(op, kind, Reply(op, None, Some(response)));
        case _ =>
          return Halted;
      }
    }

    /** One turn of the drive loop. */
    method Step(ev: Event, f: Faults, ghost faults: Faults) returns (p: Progressed)
      requires Valid() && (ev.Write? ==> Expects(ev.operationId, raft.currentTerm, f, faults))
      requires faults.(appendFails := f.appendFails, rotateFails := f.rotateFails) == f
      modifies this, raft, log, storage
      ensures Valid()
      ensures ExecutedAs(Value(), p) == Turn(codec, old(Value()), ev, faults)
    {
      EffectRank(raft.Value(), ev);
      var outcome := raft.HandleEvent(ev);
      match outcome {
        case Panicked => return Halted;
        case Failed(error) => return Stopped(error);
        case Done(None) => return Next(None);
        case Done(Some(effect)) =>
          p := ExecuteEffect(effect, f, faults);
      }
    }

    /** The event/effect loop. */
    method Drive(first: Event, f: Faults, ghost faults: Faults) returns (r: DriveResult)
      requires Valid() && (first.Write? ==> Expects(first.operationId, raft.currentTerm, f, faults))
      requires faults.(appendFails := f.appendFails, rotateFails := f.rotateFails) == f
      modifies this, raft, log, storage
      ensures Valid()
      ensures DrivenAs(Value(), r) == RuntimeModel.Drive(codec, old(Value()), first, faults)
    {
      var ev := first;
      while true
        invariant Valid()
        invariant RuntimeModel.Drive(codec, Value(), ev, faults)
                  == RuntimeModel.Drive(codec, old(Value()), first, faults)
        invariant ev.Write? ==> Expects(ev.operationId, raft.currentTerm, f, faults)
        decreases Rank(ev)
      {
        var p := Step(ev, f, faults);
        match p {
          case Halted => return DrivePanicked;
          case Stopped(error) => return DriveFailed(error);
          case Next(None) => return Drove;
          case Next(Some(next)) =>
            assert !next.Write?;
            ev := next;
        }
      }
    }

    method FailOperation(op: OperationId, error: Error)
      requires Valid()
      modifies this`operations, this`replies
      ensures Value() == RuntimeModel.FailOperation(old(Value()), op, error)
    {
      if op in operations {
        operations := operations - {op};
        replies := replies + [Reply(op, Some(error), None)];
      }
    }

    method Register(data: Command) returns (op: OperationId)
      requires Valid()
      modifies this`nextOperationId, this`operations
      ensures Valid() && op == old(nextOperationId)
      ensures Value() == Registered(old(Value()), data)
    {
      op := nextOperationId;
      nextOperationId := nextOperationId + 1;
      operations := operations[op := WriteOperation(Some(data))];
    }

    /** A client write; `ok` is false if it panicked. */
    method HandleMessage(data: Command, f: Faults) returns (ok: bool)
      requires Valid() && Fits(Last(log.segments), codec.encode(LogEntry(raft.currentTerm, data)))
      modifies this, raft, log, storage
      ensures Valid()
      ensures HandleWrite(codec, old(Value()), data, old(WithLog(f, codec.encode(LogEntry(raft.currentTerm, data)))))
              == if ok then Some(Value()) else None
    {
      ghost var faults := WithLog(f, codec.encode(LogEntry(raft.currentTerm, data)));
      var op := Register(data);
      var r := Drive(Write(op), f, faults);
      match r {
        case Drove => return true;
        case DrivePanicked => return false;
        case DriveFailed(error) =>
          FailOperation(op, error);
          return true;
      }
    }
  }

  /**
   * Restarted after an abrupt stop that lost nothing, with a fresh state machine: the first write answered Ok hands
   * over exactly the records that were in the log at the moment of the stop, and then the new command. With synchronous
   * writes a stop loses nothing unless it half removes a segment or catches an index between length and filler.
   */
  lemma RestartReplaysLog(codec: Codec, id: NodeId, st: LogState, cfg: Config, op: Op, mid: LogState, st': LogState,
                          file: seq<Byte>, hard: HardState, data: Command, f: Faults)
      returns (rt': Runtime)
    requires StateOk(st, cfg) && st.segs[0].base == 1 && op.Stop? && Moves(st, cfg, op, st')
    requires KeptAt(st, cfg, op) || (cfg.syncWrites && !LosesAt(st, cfg, op))
    requires mid == Midway(st, cfg, op.moment) && StateOk(mid, cfg)
    requires RoundTrips(codec) && Decodable(codec, AllRecords(mid.segs, cfg))
    ensures StateOk(st', cfg) && st'.segs[0].base == 1
    ensures HandleWrite(codec, Promoted(Fresh(id, {id}, AllRecords(st'.segs, cfg), file, hard)), data, f) == Some(rt')
    ensures var kept := AllRecords(mid.segs, cfg);
            AnsweredOk(rt') ==> rt'.applied == Commands(codec, kept, 1, |kept|) + [(|kept| + 1, data)]
  {
    if cfg.syncWrites {
      SyncedOpKeepsIff(st, cfg, op);
    }
    StopRestores(st, cfg, op, mid, st');
    rt' := FirstWriteReplays(codec, id, AllRecords(mid.segs, cfg), file, hard, data, f);
  }
}
