/** What the segmented log keeps over whole histories of appends, truncations, clean closes and abrupt stops. */
module LogHistories {
  import opened Bytes
  import opened RaftTypes
  import opened LogStore
  import opened LogIndex
  import opened LogSegment
  import opened RecordChunks
  import opened SegmentedLog
  import opened LogDirectory
  import opened LogStops

  /**
   * AppendUnrotated: an append after which the next segment cannot be opened.
   * Stop: an abrupt stop at some moment, any number of openings that are stopped as well, and an opening that succeeds.
   * rems[i] is what they leave of segment i.
   */
  datatype Op =
    | Append(record: Record)
    | AppendUnrotated(record: Record)
    | Truncate(off: nat)
    | CloseAndReopen
    | Stop(moment: Moment, rems: seq<Remnant>)

  /** The open log at the moment of the stop. */
  function Midway(st: LogState, cfg: Config, moment: Moment): (mid: LogState)
    requires ReadyState(st, cfg) && (moment.InTruncate? ==> moment.pops < |st.segs|)
    ensures ReadyState(mid, cfg)
  {
    match moment
    case BeforeRotate(record) => SegmentedLog.AppendUnrotated(st, cfg, record).st
    case InRotate(record) => AppendLog(st, cfg, record).st
    case InTruncate(_, pops) =>
      PopsKeepFits(st, cfg, pops);
      PopLog(st, pops)
    case _ => st
  }

  /** The log can come to this moment: an append that fits and fills its segment, a truncation above its offset. */
  ghost predicate Reaches(st: LogState, cfg: Config, moment: Moment)
    requires st.segs != []
  {
    var n, last := |st.segs|, Last(st.segs);
    match moment
    case AfterStore(record) => Fits(last, record)
    case BeforeRotate(record) => last.base <= last.next && Fits(last, record) && HasRoom(last.index)
    case InRotate(record) =>
      last.base <= last.next && Fits(last, record) && HasRoom(last.index) && IsMaxed(AppendSeg(last, record), cfg)
    case InTruncate(off, pops) =>
      st.segs[0].base <= off && pops < n && (pops > 0 ==> st.segs[n - pops].base > off)
    case _ => true
  }

  /**
   * Store sizes stay in u64, truncation does not go below the first base, and a stop leaves what it can leave: of a
   * running segment with synchronous writes the whole store.
   */
  ghost predicate Possible(st: LogState, cfg: Config, op: Op) {
    && ReadyState(st, cfg)
    && match op
       case Append(record) => Fits(Last(st.segs), record)
       case AppendUnrotated(record) => Fits(Last(st.segs), record)
       case Truncate(off) => st.segs[0].base <= off
       case CloseAndReopen => true
       case Stop(moment, rems) =>
         Reaches(st, cfg, moment) && MayLeave(Midway(st, cfg, moment).segs, cfg, moment, rems)
  }

  ghost function Exec(st: LogState, cfg: Config, op: Op): (st': LogState)
    requires Possible(st, cfg, op)
    ensures ReadyState(st', cfg)
  {
    match op
    case Append(record) => AppendLog(st, cfg, record).st
    case AppendUnrotated(record) => SegmentedLog.AppendUnrotated(st, cfg, record).st
    case Truncate(off) => TruncateLog(st, off)
    case CloseAndReopen => Reopen(st, cfg, ClosedAll(st.segs, cfg))
    case Stop(moment, rems) =>
      var mid := Midway(st, cfg, moment);
      LeftAllFits(mid.segs, cfg, moment, rems);
      Reopen(mid, cfg, LeftAll(mid.segs, cfg, rems))
  }

  /**
   * A stop loses nothing: every record had been flushed, no half-removed segment has a slot, and no index was caught
   * between its length and its filler.
   */
  ghost predicate Keeps(st: LogState, cfg: Config, op: Op)
    requires Possible(st, cfg, op)
  {
    op.Stop? ==> AllSegsKept(Midway(st, cfg, op.moment).segs, cfg, op.rems)
  }

  predicate Truncated(base: nat, before: seq<Record>, off: nat, after: seq<Record>) {
    after <= before && |after| >= Min(|before|, if off + 1 >= base then off + 1 - base else 0)
  }

  /** What one operation does to the plain sequence of records. */
  predicate Meaning(base: nat, before: seq<Record>, op: Op, room: bool, after: seq<Record>) {
    match op
    case Append(record) => after == before + (if room then [record] else [])
    case AppendUnrotated(record) => after == before + (if room then [record] else [])
    case Truncate(off) => Truncated(base, before, off, after)
    case CloseAndReopen => after == before
    case Stop(BeforeRotate(record), _) => after == before + [record]
    case Stop(InRotate(record), _) => after == before + [record]
    case Stop(InTruncate(off, _), _) => Truncated(base, before, off, after)
    case Stop(_, _) => after == before
  }

  /** Same base, and the records that the operation should leave. */
  ghost predicate Means(st: LogState, cfg: Config, op: Op, st': LogState)
    requires StateOk(st, cfg) && StateOk(st', cfg)
  {
    && st'.segs[0].base == st.segs[0].base
    && Meaning(st.segs[0].base, AllRecords(st.segs, cfg), op, HasRoom(Last(st.segs).index), AllRecords(st'.segs, cfg))
  }

  // ---- One stop ----

  lemma MidwayOk(st: LogState, cfg: Config, op: Op, mid: LogState)
    requires StateOk(st, cfg) && Possible(st, cfg, op) && op.Stop? && mid == Midway(st, cfg, op.moment)
    ensures StateOk(mid, cfg) && Means(st, cfg, op, mid)
  {
    match op.moment {
      case BeforeRotate(record) =>
        AppendUnrotatedRefines(st, cfg, record);
      case InRotate(record) =>
        AppendRefines(st, cfg, record);
      case InTruncate(off, pops) =>
        PopRefines(st, cfg, off, pops, mid);
      case _ =>
    }
  }

  /** A truncation that has removed a segment has a last segment with slots. */
  lemma PoppedHasSlots(st: LogState, cfg: Config, pops: nat)
    requires StateOk(st, cfg) && 0 < pops < |st.segs|
    ensures Last(PopLog(st, pops).segs).index.size > 0
  {
    OthersHaveSlots(st.segs, cfg, |st.segs| - pops - 1);
  }

  /** What an operation means for a log with more records than the log at the moment of the stop: nothing. */
  lemma GrownMeansNothing(st: LogState, cfg: Config, op: Op, mid: LogState, st': LogState)
    requires StateOk(st, cfg) && Possible(st, cfg, op) && op.Stop? && mid == Midway(st, cfg, op.moment)
    requires StateOk(mid, cfg) && Means(st, cfg, op, mid) && Last(mid.segs).index.size == 0
    requires StateOk(st', cfg) && |AllRecords(st'.segs, cfg)| == |AllRecords(mid.segs, cfg)| + 1
    ensures !Means(st, cfg, op, st')
  {
    if op.moment.InTruncate? && op.moment.pops > 0 {
      PoppedHasSlots(st, cfg, op.moment.pops);
    }
  }

  lemma SameLogMeansSame(st: LogState, cfg: Config, op: Op, mid: LogState, st': LogState)
    requires StateOk(st, cfg) && StateOk(mid, cfg) && StateOk(st', cfg) && Means(st, cfg, op, mid)
    requires SameLog(mid, st', cfg)
    ensures Means(st, cfg, op, st')
  {
  }

  /** The opening after the stop, from the log at its moment. */
  ghost predicate Opens(mid: LogState, cfg: Config, op: Op, st': LogState) {
    && op.Stop? && StateOk(mid, cfg) && ReadyState(mid, cfg) && MayLeave(mid.segs, cfg, op.moment, op.rems)
    && FilesFit(LeftAll(mid.segs, cfg, op.rems), cfg) && st' == Reopen(mid, cfg, LeftAll(mid.segs, cfg, op.rems))
  }

  lemma KeptStopMeans(st: LogState, cfg: Config, op: Op, mid: LogState, st': LogState)
    requires StateOk(st, cfg) && Opens(mid, cfg, op, st') && Means(st, cfg, op, mid)
    requires AllSegsKept(mid.segs, cfg, op.rems)
    ensures StateOk(st', cfg) && Means(st, cfg, op, st')
  {
    StopKeepsIff(mid, cfg, op.moment, op.rems, st');
    SameLogMeansSame(st, cfg, op, mid, st');
  }

  lemma LostStopMeansNothing(st: LogState, cfg: Config, op: Op, mid: LogState, st': LogState)
    requires StateOk(st, cfg) && Possible(st, cfg, op) && Opens(mid, cfg, op, st') && Means(st, cfg, op, mid)
    requires mid == Midway(st, cfg, op.moment) && !AllSegsKept(mid.segs, cfg, op.rems)
    ensures !(StateOk(st', cfg) && Means(st, cfg, op, st'))
  {
    if Caught(Last(mid.segs), cfg, op.rems[|op.rems| - 1]) {
      CaughtGrows(mid, cfg, op.moment, op.rems, st');
      if StateOk(st', cfg) && st'.segs[0].base == mid.segs[0].base {
        GrownMeansNothing(st, cfg, op, mid, st');
      }
    } else {
      UncaughtIsUnsound(mid, cfg, op.moment, op.rems, st');
    }
  }

  lemma StopMeansIff(st: LogState, cfg: Config, op: Op, st': LogState)
    requires StateOk(st, cfg) && Possible(st, cfg, op) && op.Stop? && st' == Exec(st, cfg, op)
    ensures StateOk(st', cfg) && Means(st, cfg, op, st') <==> Keeps(st, cfg, op)
  {
    var mid := Midway(st, cfg, op.moment);
    MidwayOk(st, cfg, op, mid);
    LeftAllFits(mid.segs, cfg, op.moment, op.rems);
    assert Opens(mid, cfg, op, st');
    if Keeps(st, cfg, op) {
      KeptStopMeans(st, cfg, op, mid, st');
    } else {
      LostStopMeansNothing(st, cfg, op, mid, st');
    }
  }

  /** A stop that loses nothing restores exactly the log of its moment. */
  lemma StopRestores(st: LogState, cfg: Config, op: Op, mid: LogState, st': LogState)
    requires StateOk(st, cfg) && op.Stop? && KeptAt(st, cfg, op) && st' == Exec(st, cfg, op)
    requires mid == Midway(st, cfg, op.moment)
    ensures StateOk(mid, cfg) && mid.segs[0].base == st.segs[0].base && StateOk(st', cfg) && SameLog(mid, st', cfg)
  {
    MidwayOk(st, cfg, op, mid);
    LeftAllFits(mid.segs, cfg, op.moment, op.rems);
    StopKeepsIff(mid, cfg, op.moment, op.rems, st');
  }

  lemma UncaughtIsUnsound(mid: LogState, cfg: Config, moment: Moment, rems: seq<Remnant>, st': LogState)
    requires StateOk(mid, cfg) && ReadyState(mid, cfg) && MayLeave(mid.segs, cfg, moment, rems)
    requires FilesFit(LeftAll(mid.segs, cfg, rems), cfg) && st' == Reopen(mid, cfg, LeftAll(mid.segs, cfg, rems))
    requires !Caught(Last(mid.segs), cfg, rems[|rems| - 1]) && !AllSegsKept(mid.segs, cfg, rems)
    ensures !StateOk(st', cfg)
  {
    var files := LeftAll(mid.segs, cfg, rems);
    UncaughtKeepsIff(mid, cfg, moment, rems, files);
    ReopenKeepsIff(mid, cfg, files);
  }

  // ---- One operation ----

  lemma AppendMeans(st: LogState, cfg: Config, op: Op, st': LogState)
    requires StateOk(st, cfg) && Possible(st, cfg, op) && op.Append? && st' == Exec(st, cfg, op)
    ensures StateOk(st', cfg) && Means(st, cfg, op, st')
  {
    AppendRefines(st, cfg, op.record);
  }

  lemma AppendUnrotatedMeans(st: LogState, cfg: Config, op: Op, st': LogState)
    requires StateOk(st, cfg) && Possible(st, cfg, op) && op.AppendUnrotated? && st' == Exec(st, cfg, op)
    ensures StateOk(st', cfg) && Means(st, cfg, op, st')
  {
    AppendUnrotatedRefines(st, cfg, op.record);
  }

  lemma TruncateMeans(st: LogState, cfg: Config, op: Op, st': LogState)
    requires StateOk(st, cfg) && Possible(st, cfg, op) && op.Truncate? && st' == Exec(st, cfg, op)
    ensures StateOk(st', cfg) && Means(st, cfg, op, st')
  {
    var k := TruncateRefines(st, cfg, op.off);
  }

  lemma CloseMeans(st: LogState, cfg: Config, op: Op, st': LogState)
    requires StateOk(st, cfg) && Possible(st, cfg, op) && op.CloseAndReopen? && st' == Exec(st, cfg, op)
    ensures StateOk(st', cfg) && Means(st, cfg, op, st')
  {
    CloseRefines(st, cfg);
  }

  /**
   * Every operation leaves a sound log over a tidy directory, and means what it should on the sequence of records,
   * exactly if it is no stop that loses something.
   */
  lemma ExecKeepsIff(st: LogState, cfg: Config, op: Op, st': LogState)
    requires StateOk(st, cfg) && Possible(st, cfg, op) && st' == Exec(st, cfg, op)
    ensures StateOk(st', cfg) && Means(st, cfg, op, st') <==> Keeps(st, cfg, op)
  {
    if op.Stop? {
      StopMeansIff(st, cfg, op, st');
    } else if op.Append? {
      AppendMeans(st, cfg, op, st');
    } else if op.AppendUnrotated? {
      AppendUnrotatedMeans(st, cfg, op, st');
    } else if op.Truncate? {
      TruncateMeans(st, cfg, op, st');
    } else {
      CloseMeans(st, cfg, op, st');
    }
  }

  /**
   * What can lose something with synchronous writes: a stop between the two file removals of a segment with slots, and
   * a stop of an opening that leaves the empty index of the last segment with its length and without its filler.
   */
  ghost predicate LosesDespiteSync(st: LogState, cfg: Config, op: Op)
    requires Possible(st, cfg, op)
  {
    op.Stop? && LosesSynced(Last(Midway(st, cfg, op.moment).segs), cfg, op.rems[|op.rems| - 1])
  }

  lemma SyncedOpKeepsIff(st: LogState, cfg: Config, op: Op)
    requires StateOk(st, cfg) && Possible(st, cfg, op) && cfg.syncWrites
    ensures Keeps(st, cfg, op) <==> !LosesDespiteSync(st, cfg, op)
  {
    if op.Stop? {
      MidwayOk(st, cfg, op, Midway(st, cfg, op.moment));
      SyncedKeepsIff(Midway(st, cfg, op.moment).segs, cfg, op.moment, op.rems);
    }
  }

  // ---- Histories ----

  ghost predicate Moves(st: LogState, cfg: Config, op: Op, st': LogState) {
    Possible(st, cfg, op) && st' == Exec(st, cfg, op)
  }

  /** Each state follows from the one before by a possible operation. */
  ghost predicate Chain(states: seq<LogState>, cfg: Config, ops: seq<Op>) {
    && |states| == |ops| + 1
    && forall k {:trigger Moves(states[k], cfg, ops[k], states[k + 1])} ::
         0 <= k < |ops| ==> Moves(states[k], cfg, ops[k], states[k + 1])
  }

  /** The states of a history from a sound log. */
  ghost predicate History(states: seq<LogState>, cfg: Config, ops: seq<Op>) {
    Chain(states, cfg, ops) && StateOk(states[0], cfg)
  }

  ghost predicate KeptAt(st: LogState, cfg: Config, op: Op) {
    Possible(st, cfg, op) && Keeps(st, cfg, op)
  }

  /** No operation of the history loses anything. */
  ghost predicate AllKept(states: seq<LogState>, cfg: Config, ops: seq<Op>)
    requires |states| == |ops| + 1
  {
    forall k {:trigger KeptAt(states[k], cfg, ops[k])} :: 0 <= k < |ops| ==> KeptAt(states[k], cfg, ops[k])
  }

  /** The operation leaves a sound log with the records it should. */
  ghost predicate Refines(st: LogState, cfg: Config, op: Op, st': LogState) {
    StateOk(st, cfg) && StateOk(st', cfg) && Means(st, cfg, op, st')
  }

  ghost predicate AllRefine(states: seq<LogState>, cfg: Config, ops: seq<Op>)
    requires |states| == |ops| + 1
  {
    forall k {:trigger Refines(states[k], cfg, ops[k], states[k + 1])} ::
      0 <= k < |ops| ==> Refines(states[k], cfg, ops[k], states[k + 1])
  }

  lemma StepRefinesIff(states: seq<LogState>, cfg: Config, ops: seq<Op>, k: nat)
    requires History(states, cfg, ops) && k < |ops| && StateOk(states[k], cfg)
    ensures Refines(states[k], cfg, ops[k], states[k + 1]) <==> KeptAt(states[k], cfg, ops[k])
  {
    assert Moves(states[k], cfg, ops[k], states[k + 1]);
    ExecKeepsIff(states[k], cfg, ops[k], states[k + 1]);
  }

  lemma {:induction false} KeptIsOk(states: seq<LogState>, cfg: Config, ops: seq<Op>, k: nat)
    requires History(states, cfg, ops) && AllKept(states, cfg, ops) && k <= |ops|
    ensures StateOk(states[k], cfg)
  {
    if k > 0 {
      KeptIsOk(states, cfg, ops, k - 1);
      StepRefinesIff(states, cfg, ops, k - 1);
      assert KeptAt(states[k - 1], cfg, ops[k - 1]);
    }
  }

  /**
   * At every moment of a history the log is sound, over a directory with exactly the files of its segments, and every
   * operation does what it should to the records, if and only if no stop of the history loses anything.
   */
  lemma HistoryKeepsIff(states: seq<LogState>, cfg: Config, ops: seq<Op>)
    requires History(states, cfg, ops)
    ensures AllRefine(states, cfg, ops) <==> AllKept(states, cfg, ops)
  {
    if AllKept(states, cfg, ops) {
      forall k | 0 <= k < |ops|
        ensures Refines(states[k], cfg, ops[k], states[k + 1])
      {
        KeptIsOk(states, cfg, ops, k);
        StepRefinesIff(states, cfg, ops, k);
        assert KeptAt(states[k], cfg, ops[k]);
      }
    }
    if AllRefine(states, cfg, ops) {
      forall k | 0 <= k < |ops|
        ensures KeptAt(states[k], cfg, ops[k])
      {
        assert Refines(states[k], cfg, ops[k], states[k + 1]);
        StepRefinesIff(states, cfg, ops, k);
      }
    }
  }

  ghost predicate LosesAt(st: LogState, cfg: Config, op: Op) {
    Possible(st, cfg, op) && LosesDespiteSync(st, cfg, op)
  }

  lemma SyncedStep(states: seq<LogState>, cfg: Config, ops: seq<Op>, k: nat)
    requires History(states, cfg, ops) && k < |ops| && StateOk(states[k], cfg) && cfg.syncWrites
    ensures KeptAt(states[k], cfg, ops[k]) <==> !LosesAt(states[k], cfg, ops[k])
  {
    assert Moves(states[k], cfg, ops[k], states[k + 1]);
    SyncedOpKeepsIff(states[k], cfg, ops[k]);
  }

  lemma {:induction false} SyncedStateOk(states: seq<LogState>, cfg: Config, ops: seq<Op>, k: nat)
    requires History(states, cfg, ops) && cfg.syncWrites && k <= |ops|
    requires forall i {:trigger LosesAt(states[i], cfg, ops[i])} :: 0 <= i < k ==> !LosesAt(states[i], cfg, ops[i])
    ensures StateOk(states[k], cfg)
  {
    if k > 0 {
      SyncedStateOk(states, cfg, ops, k - 1);
      StepRefinesIff(states, cfg, ops, k - 1);
      assert !LosesAt(states[k - 1], cfg, ops[k - 1]);
      SyncedStep(states, cfg, ops, k - 1);
    }
  }

  /** With synchronous writes only a half-removed segment with slots or a caught index can lose anything. */
  lemma {:induction false} SyncedHistoryKeepsIff(states: seq<LogState>, cfg: Config, ops: seq<Op>)
    requires History(states, cfg, ops) && cfg.syncWrites
    ensures AllKept(states, cfg, ops) <==>
            forall k {:trigger LosesAt(states[k], cfg, ops[k])} :: 0 <= k < |ops| ==> !LosesAt(states[k], cfg, ops[k])
  {
    if AllKept(states, cfg, ops) {
      forall k | 0 <= k < |ops|
        ensures !LosesAt(states[k], cfg, ops[k])
      {
        assert KeptAt(states[k], cfg, ops[k]);
        KeptIsOk(states, cfg, ops, k);
        SyncedStep(states, cfg, ops, k);
      }
    }
    if forall k {:trigger LosesAt(states[k], cfg, ops[k])} :: 0 <= k < |ops| ==> !LosesAt(states[k], cfg, ops[k]) {
      forall k | 0 <= k < |ops|
        ensures KeptAt(states[k], cfg, ops[k])
      {
        SyncedStateOk(states, cfg, ops, k);
        assert !LosesAt(states[k], cfg, ops[k]);
        SyncedStep(states, cfg, ops, k);
      }
    }
  }

  /** A rotation always starts with empty files, also at a base offset that a truncation removed earlier. */
  lemma RotationStartsEmpty(states: seq<LogState>, cfg: Config, ops: seq<Op>, k: nat)
    requires History(states, cfg, ops) && AllKept(states, cfg, ops) && k < |ops| && ops[k].Append?
    requires |states[k + 1].segs| > |states[k].segs|
    ensures states[k].segs != []
    ensures var s := Last(states[k + 1].segs);
            && s.store == [] && s.index.size == 0 && s.base == s.next == Last(states[k].segs).next + 1
  {
    KeptIsOk(states, cfg, ops, k);
    assert Moves(states[k], cfg, ops[k], states[k + 1]);
    LastAfterAppend(states[k], cfg, ops[k].record, Last(states[k + 1].segs));
  }

  // ---- Plain sequences ----

  ghost predicate Reads(st: LogState, cfg: Config, off: nat, record: Record)
    requires StateOk(st, cfg)
  {
    ReadRefines(st.segs, cfg, off);
    ReadLog(st.segs, cfg, off) == Some(record)
  }

  predicate HoldsAt(base: nat, records: seq<Record>, off: nat, record: Record) {
    base <= off < base + |records| && records[off - base] == record
  }

  lemma ReadsIffHolds(st: LogState, cfg: Config, off: nat, record: Record)
    requires StateOk(st, cfg)
    ensures Reads(st, cfg, off, record) <==> HoldsAt(st.segs[0].base, AllRecords(st.segs, cfg), off, record)
  {
    ReadRefines(st.segs, cfg, off);
  }

  /** The operation is no truncation, finished or stopped, below this offset. */
  predicate Spares(op: Op, off: nat) {
    && (op.Truncate? ==> off <= op.off)
    && (op.Stop? && op.moment.InTruncate? ==> off <= op.moment.off)
  }

  lemma MeaningKeepsRecord(base: nat, before: seq<Record>, op: Op, room: bool, after: seq<Record>, off: nat,
                           record: Record)
    requires Meaning(base, before, op, room, after) && HoldsAt(base, before, off, record)
    requires Spares(op, off)
    ensures HoldsAt(base, after, off, record)
  {
  }

  /** The log stands for this plain sequence from this base on. */
  ghost predicate Stands(st: LogState, cfg: Config, base: nat, content: seq<Record>) {
    StateOk(st, cfg) && st.segs[0].base == base && content == AllRecords(st.segs, cfg)
  }

  /** A history of plain sequences. */
  ghost predicate Plain(base: nat, contents: seq<seq<Record>>, rooms: seq<bool>, ops: seq<Op>) {
    && |contents| == |rooms| + 1 && |rooms| == |ops|
    && forall k {:trigger Meaning(base, contents[k], ops[k], rooms[k], contents[k + 1])} ::
         0 <= k < |ops| ==> Meaning(base, contents[k], ops[k], rooms[k], contents[k + 1])
  }

  lemma PlainExtends(base: nat, cs: seq<seq<Record>>, rs: seq<bool>, ops: seq<Op>, room: bool, content: seq<Record>)
    requires ops != [] && Plain(base, cs, rs, ops[..|ops| - 1])
    requires Meaning(base, cs[|ops| - 1], ops[|ops| - 1], room, content)
    ensures Plain(base, cs + [content], rs + [room], ops)
  {
    var n, contents, rooms := |ops| - 1, cs + [content], rs + [room];
    forall k | 0 <= k < |ops|
      ensures Meaning(base, contents[k], ops[k], rooms[k], contents[k + 1])
    {
      if k < n {
        assert Meaning(base, cs[k], ops[..n][k], rs[k], cs[k + 1]);
      }
    }
  }

  lemma HistoryPrefix(states: seq<LogState>, cfg: Config, ops: seq<Op>)
    requires History(states, cfg, ops) && AllKept(states, cfg, ops) && ops != []
    ensures History(states[..|ops|], cfg, ops[..|ops| - 1]) && AllKept(states[..|ops|], cfg, ops[..|ops| - 1])
  {
    var n := |ops| - 1;
    forall k | 0 <= k < n
      ensures Moves(states[..n + 1][k], cfg, ops[..n][k], states[..n + 1][k + 1])
      ensures KeptAt(states[..n + 1][k], cfg, ops[..n][k])
    {
      assert Moves(states[k], cfg, ops[k], states[k + 1]) && KeptAt(states[k], cfg, ops[k]);
    }
  }

  lemma StepMeans(states: seq<LogState>, cfg: Config, ops: seq<Op>, k: nat)
    requires History(states, cfg, ops) && AllKept(states, cfg, ops) && k < |ops| && StateOk(states[k], cfg)
    ensures StateOk(states[k + 1], cfg) && Means(states[k], cfg, ops[k], states[k + 1])
  {
    assert KeptAt(states[k], cfg, ops[k]);
    StepRefinesIff(states, cfg, ops, k);
  }

  /** Every history that loses nothing stands for a history of plain sequences. */
  lemma {:induction false} HistoryIsPlain(states: seq<LogState>, cfg: Config, ops: seq<Op>)
    returns (contents: seq<seq<Record>>, rooms: seq<bool>)
    requires History(states, cfg, ops) && AllKept(states, cfg, ops)
    ensures Plain(states[0].segs[0].base, contents, rooms, ops)
    ensures forall k {:trigger Stands(states[k], cfg, states[0].segs[0].base, contents[k])} ::
              0 <= k <= |ops| ==> Stands(states[k], cfg, states[0].segs[0].base, contents[k])
    decreases |ops|
  {
    var base := states[0].segs[0].base;
    if ops == [] {
      contents, rooms := [AllRecords(states[0].segs, cfg)], [];
      assert Stands(states[0], cfg, base, contents[0]);
    } else {
      var n := |ops| - 1;
      HistoryPrefix(states, cfg, ops);
      var cs, rs := HistoryIsPlain(states[..n + 1], cfg, ops[..n]);
      assert Stands(states[..n + 1][n], cfg, base, cs[n]);
      StepMeans(states, cfg, ops, n);
      var content, room := AllRecords(states[n + 1].segs, cfg), HasRoom(Last(states[n].segs).index);
      PlainExtends(base, cs, rs, ops, room, content);
      contents, rooms := cs + [content], rs + [room];
      forall k | 0 <= k <= |ops|
        ensures Stands(states[k], cfg, base, contents[k])
      {
        if k <= n {
          assert Stands(states[..n + 1][k], cfg, base, cs[k]);
        }
      }
    }
  }

  lemma {:induction false} OffsetSurvives(base: nat, contents: seq<seq<Record>>, rooms: seq<bool>, ops: seq<Op>,
                                          i: nat, j: nat, off: nat, record: Record)
    requires Plain(base, contents, rooms, ops) && i <= j <= |ops|
    requires forall k :: i <= k < j ==> Spares(ops[k], off)
    requires HoldsAt(base, contents[i], off, record)
    ensures HoldsAt(base, contents[j], off, record)
    decreases j
  {
    if i < j {
      var k := j - 1;
      OffsetSurvives(base, contents, rooms, ops, i, k, off, record);
      assert Meaning(base, contents[k], ops[k], rooms[k], contents[k + 1]);
      MeaningKeepsRecord(base, contents[k], ops[k], rooms[k], contents[k + 1], off, record);
    }
  }

  /**
   * A record that is readable stays readable, unchanged, at its offset through any later operations,
   * stops included, as long as no truncation goes below that offset.
   */
  lemma RecordSurvives(states: seq<LogState>, cfg: Config, ops: seq<Op>, i: nat, j: nat, off: nat, record: Record)
    requires History(states, cfg, ops) && AllKept(states, cfg, ops) && i <= j <= |ops|
    requires forall k :: i <= k < j ==> Spares(ops[k], off)
    requires StateOk(states[i], cfg) && Reads(states[i], cfg, off, record)
    ensures StateOk(states[j], cfg) && Reads(states[j], cfg, off, record)
  {
    var base := states[0].segs[0].base;
    var contents, rooms := HistoryIsPlain(states, cfg, ops);
    assert Stands(states[i], cfg, base, contents[i]) && Stands(states[j], cfg, base, contents[j]);
    ReadsIffHolds(states[i], cfg, off, record);
    OffsetSurvives(base, contents, rooms, ops, i, j, off, record);
    ReadsIffHolds(states[j], cfg, off, record);
  }

  /** The offset that an append answers, and the record readable there. */
  lemma AppendedIsReadable(st: LogState, cfg: Config, op: Op, st': LogState)
    requires StateOk(st, cfg) && op.Append? && Moves(st, cfg, op, st') && HasRoom(Last(st.segs).index)
    ensures ReadyState(st, cfg) && AppendLog(st, cfg, op.record).offset == Some(Last(st.segs).next)
    ensures StateOk(st', cfg) && Reads(st', cfg, Last(st.segs).next, op.record)
  {
    AppendRefines(st, cfg, op.record);
    NextOffsetIs(st.segs, cfg);
    ReadRefines(st'.segs, cfg, Last(st.segs).next);
  }

  /** An append that answers with an offset can be read back at that offset ever after. */
  lemma AppendedRecordSurvives(states: seq<LogState>, cfg: Config, ops: seq<Op>, i: nat, j: nat)
    requires History(states, cfg, ops) && AllKept(states, cfg, ops) && i < j <= |ops| && ops[i].Append?
    requires StateOk(states[i], cfg) && HasRoom(Last(states[i].segs).index)
    requires forall k :: i < k < j ==> Spares(ops[k], Last(states[i].segs).next)
    ensures ReadyState(states[i], cfg)
    ensures AppendLog(states[i], cfg, ops[i].record).offset == Some(Last(states[i].segs).next)
    ensures StateOk(states[j], cfg) && Reads(states[j], cfg, Last(states[i].segs).next, ops[i].record)
  {
    assert Moves(states[i], cfg, ops[i], states[i + 1]);
    AppendedIsReadable(states[i], cfg, ops[i], states[i + 1]);
    RecordSurvives(states, cfg, ops, i + 1, j, Last(states[i].segs).next, ops[i].record);
  }

  // ---- New logs ----

  /** A new log in an empty directory. */
  function NewLog(cfg: Config): LogState {
    Rotate(LogState([], map[]), cfg, cfg.initialOffset)
  }

  lemma NewLogOk(cfg: Config)
    requires cfg.maxIndexBytes <= MAX_INDEX_BYTES
    ensures StateOk(NewLog(cfg), cfg) && AllRecords(NewLog(cfg).segs, cfg) == [] && ReadyState(NewLog(cfg), cfg)
    ensures NewLog(cfg).segs == [OpenSeg(NO_FILES, cfg.initialOffset, cfg)]
  {
    var s := OpenSeg(NO_FILES, cfg.initialOffset, cfg);
    NewSegOk(cfg.initialOffset, cfg);
    assert NewLog(cfg).segs == [s];
    assert SegOk(NewLog(cfg).segs[0], cfg);
    assert Flat([]) == [];
    var cs := Chunks(NewLog(cfg).segs, cfg);
    assert cs == [ChunkOf(s, cfg)] && cs[..0] == [];
    BaseSetGrows([], s);
    assert [] + [s] == [s];
  }

  /** Opening an empty directory gives the new log: one segment without records at the configured first offset. */
  lemma EmptyDirectoryOpens(cfg: Config)
    requires cfg.maxIndexBytes <= MAX_INDEX_BYTES
    ensures OpenLog(map[], cfg) == NewLog(cfg)
    ensures var st := OpenLog(map[], cfg);
            && |st.segs| == 1 && st.segs[0].base == st.segs[0].next == cfg.initialOffset
            && st.dir.Keys == {cfg.initialOffset} && StateOk(st, cfg) && AllRecords(st.segs, cfg) == []
  {
    NewLogOk(cfg);
  }

  /** A log opened after the creation of its first segment was stopped with this index file. */
  ghost function FirstOpened(cfg: Config, image: seq<Byte>): LogState
    requires |image| <= cfg.maxIndexBytes
  {
    OpenLog(map[cfg.initialOffset := Files([], image)], cfg)
  }

  /** A stop of the first creation leaves a new log exactly if the index is not caught between length and filler. */
  lemma FirstCreationIff(cfg: Config, image: seq<Byte>)
    requires cfg.maxIndexBytes <= MAX_INDEX_BYTES && Reimaged([], image, cfg.maxIndexBytes)
    ensures var st := FirstOpened(cfg, image);
            StateOk(st, cfg) && st.segs[0].base == cfg.initialOffset && AllRecords(st.segs, cfg) == [] <==>
            !(image == Repeat(0, cfg.maxIndexBytes) && 12 <= cfg.maxIndexBytes)
  {
    NewLogOk(cfg);
    var first, rems := NewLog(cfg), [Remnant(JustNew, image)];
    assert Remaining(first.segs, cfg, InRotate([]), rems, 0);
    LeftAllFits(first.segs, cfg, InRotate([]), rems);
    var files := LeftAll(first.segs, cfg, rems);
    var bases := Bases(first.segs);
    assert files == [Files([], image)] && bases == [cfg.initialOffset] && bases[..0] == [];
    assert PutAll(first.dir, bases, files) == map[cfg.initialOffset := Files([], image)];
    StopKeepsIff(first, cfg, InRotate([]), rems, FirstOpened(cfg, image));
    assert SegKept(first.segs[0], cfg, rems[0]) <==> AllSegsKept(first.segs, cfg, rems);
  }

  /** From its first creation on, which may have been stopped, a log keeps everything exactly under both conditions. */
  lemma CreatedHistoryKeepsIff(states: seq<LogState>, cfg: Config, ops: seq<Op>, image: seq<Byte>)
    requires cfg.maxIndexBytes <= MAX_INDEX_BYTES && Reimaged([], image, cfg.maxIndexBytes)
    requires Chain(states, cfg, ops) && states[0] == FirstOpened(cfg, image)
    ensures StateOk(states[0], cfg) && states[0].segs[0].base == cfg.initialOffset
            && AllRecords(states[0].segs, cfg) == [] && AllRefine(states, cfg, ops)
            <==>
            !(image == Repeat(0, cfg.maxIndexBytes) && 12 <= cfg.maxIndexBytes) && AllKept(states, cfg, ops)
  {
    FirstCreationIff(cfg, image);
    if StateOk(states[0], cfg) {
      HistoryKeepsIff(states, cfg, ops);
    }
  }
}
