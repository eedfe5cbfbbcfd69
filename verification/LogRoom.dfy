/** When the log refuses appends because its last segment has no free slot, and that it then refuses them for good. */
module LogRoom {
  import opened Bytes
  import opened LogStore
  import opened LogIndex
  import opened LogSegment
  import opened SegmentedLog
  import opened LogDirectory
  import opened LogStops
  import opened LogHistories
  import opened LogLimits

  predicate Room(st: LogState) {
    st.segs != [] && HasRoom(Last(st.segs).index)
  }

  // ---- Full logs ----

  /** The operation is a truncation, finished or stopped. */
  predicate Truncates(op: Op) {
    op.Truncate? || (op.Stop? && op.moment.InTruncate?)
  }

  lemma FullStopStaysFull(st: LogState, cfg: Config, op: Op, st': LogState)
    requires StateOk(st, cfg) && Moves(st, cfg, op, st') && op.Stop? && Keeps(st, cfg, op) && !Room(st)
    requires Midway(st, cfg, op.moment) == st
    ensures !Room(st') && StateOk(st', cfg) && AllRecords(st'.segs, cfg) == AllRecords(st.segs, cfg)
  {
    var n := |st.segs| - 1;
    LeftAllFits(st.segs, cfg, op.moment, op.rems);
    StopKeepsIff(st, cfg, op.moment, op.rems, st');
    assert SegKept(st.segs[n], cfg, op.rems[n]);
    StopKeepsLastSizes(st, cfg, op.moment, op.rems, Last(st'.segs));
  }

  /** A log whose last segment has no free slot, and every log it becomes without truncation. */
  lemma FullStepStaysFull(st: LogState, cfg: Config, op: Op, st': LogState)
    requires StateOk(st, cfg) && Moves(st, cfg, op, st') && Keeps(st, cfg, op) && !Truncates(op) && !Room(st)
    ensures !Room(st') && StateOk(st', cfg) && AllRecords(st'.segs, cfg) == AllRecords(st.segs, cfg)
  {
    match op {
      case Append(record) =>
        AppendRefines(st, cfg, record);
        LastAfterAppend(st, cfg, record, Last(st'.segs));
      case AppendUnrotated(record) =>
        AppendUnrotatedRefines(st, cfg, record);
      case CloseAndReopen =>
        CloseRefines(st, cfg);
        CloseKeepsLastSizes(st, cfg, Last(st'.segs));
      case Stop(moment, rems) =>
        FullStopStaysFull(st, cfg, op, st');
      case _ =>
    }
  }

  /** A full log refuses every append from then on and keeps its records, until a truncation. */
  lemma {:induction false} FullLogStaysFull(states: seq<LogState>, cfg: Config, ops: seq<Op>, k: nat)
    requires History(states, cfg, ops) && AllKept(states, cfg, ops) && k <= |ops|
    requires forall i :: 0 <= i < |ops| ==> !Truncates(ops[i])
    requires !Room(states[0])
    ensures StateOk(states[k], cfg) && !Room(states[k])
    ensures AllRecords(states[k].segs, cfg) == AllRecords(states[0].segs, cfg)
  {
    if k > 0 {
      var j := k - 1;
      FullLogStaysFull(states, cfg, ops, j);
      assert Moves(states[j], cfg, ops[j], states[j + 1]) && KeptAt(states[j], cfg, ops[j]);
      FullStepStaysFull(states[j], cfg, ops[j], states[k]);
    }
  }

  // ---- Ways to fill a log ----

  /** A truncation leaves room exactly if the last segment at or below the offset has room. */
  lemma RoomAfterTruncateIff(st: LogState, cfg: Config, off: nat) returns (k: nat)
    requires StateOk(st, cfg) && st.segs[0].base <= off
    ensures k < |st.segs| && st.segs[k].base <= off && forall i :: k < i < |st.segs| ==> st.segs[i].base > off
    ensures Room(TruncateLog(st, off)) <==> st.segs[k].index.size + 12 <= cfg.maxIndexBytes
  {
    var n := TruncateRefines(st, cfg, off);
    k := n - 1;
    assert SegOk(st.segs[k], cfg);
  }

  /** Truncating back into the segment that an append has just filled leaves a full log. */
  lemma TruncateBackToFull(st: LogState, cfg: Config, record: Record)
    requires StateOk(st, cfg) && Fits(Last(st.segs), record) && ReadyState(st, cfg)
    requires Last(st.segs).index.size + 12 == cfg.maxIndexBytes
    ensures Room(st) && !Room(TruncateLog(AppendLog(st, cfg, record).st, Last(st.segs).next))
  {
    var s, st' := Last(st.segs), AppendLog(st, cfg, record).st;
    LastOk(st.segs, cfg);
    SizesAfterAppend(s, cfg, record);
    AppendRefines(st, cfg, record);
    LastAfterAppend(st, cfg, record, Last(st'.segs));
    SegmentBasesRise(st'.segs, cfg);
    var k := RoomAfterTruncateIff(st', cfg, s.next);
    assert st'.segs[|st'.segs| - 2] == AppendSeg(s, record);
  }

  /** After an append whose rotation failed there is room exactly if two slots were free. */
  lemma RoomAfterFailedRotationIff(st: LogState, cfg: Config, record: Record, st': LogState)
    requires StateOk(st, cfg) && Fits(Last(st.segs), record) && ReadyState(st, cfg) && Room(st)
    requires st' == SegmentedLog.AppendUnrotated(st, cfg, record).st
    ensures Room(st') <==> Last(st.segs).index.size + 24 <= cfg.maxIndexBytes
  {
    LastOk(st.segs, cfg);
    SizesAfterAppend(Last(st.segs), cfg, record);
    assert Last(st'.segs) == AppendSeg(Last(st.segs), record);
  }

  /** A stop in an append keeps the slots of the segments it finds running. */
  lemma RunningKeepsRoom(mid: LogState, cfg: Config, moment: Moment, rems: seq<Remnant>, st': LogState)
    requires StateOk(mid, cfg) && ReadyState(mid, cfg) && moment.BeforeRotate? && MayLeave(mid.segs, cfg, moment, rems)
    requires FilesFit(LeftAll(mid.segs, cfg, rems), cfg) && st' == Reopen(mid, cfg, LeftAll(mid.segs, cfg, rems))
    ensures Room(st') <==> Room(mid)
  {
    assert Remaining(mid.segs, cfg, moment, rems, |mid.segs| - 1);
    StopKeepsLastSizes(mid, cfg, moment, rems, Last(st'.segs));
  }

  /** A stop between index write and rotation leaves room exactly if two slots were free. */
  lemma RoomAfterStopBeforeRotateIff(st: LogState, cfg: Config, op: Op, st': LogState)
    requires StateOk(st, cfg) && op.Stop? && op.moment.BeforeRotate? && Moves(st, cfg, op, st')
    ensures Room(st') <==> Last(st.segs).index.size + 24 <= cfg.maxIndexBytes
  {
    var mid := Midway(st, cfg, op.moment);
    MidwayOk(st, cfg, op, mid);
    LeftAllFits(mid.segs, cfg, op.moment, op.rems);
    RunningKeepsRoom(mid, cfg, op.moment, op.rems, st');
    LastOk(st.segs, cfg);
    SizesAfterAppend(Last(st.segs), cfg, op.moment.record);
    assert Last(mid.segs) == AppendSeg(Last(st.segs), op.moment.record);
  }

  // ---- Logs that never fill ----

  /** An index limit that is used up exactly, or a store limit that is reached before the last slot. */
  predicate NeverFills(cfg: Config) {
    && 12 <= cfg.maxIndexBytes
    && (cfg.maxIndexBytes % 12 == 0 || 8 * (cfg.maxIndexBytes / 12) >= cfg.maxStoreBytes)
  }

  predicate AppendsAndCloses(ops: seq<Op>) {
    forall i :: 0 <= i < |ops| ==> ops[i].Append? || ops[i].CloseAndReopen?
  }

  /** Every slot of the last segment has cost at least the eight bytes of a length. */
  predicate SlotsCost(st: LogState) {
    st.segs != [] && 8 * Count(Last(st.segs).index) <= |Last(st.segs).store|
  }

  /** Whether an append that finds a free slot fills the segment. */
  predicate FillsSegment(s: Seg, cfg: Config, record: Record) {
    s.index.size + 12 >= cfg.maxIndexBytes || |s.store| + 8 + |record| >= cfg.maxStoreBytes
  }

  lemma LastSizes(st: LogState, cfg: Config, record: Record, last: Seg)
    requires StateOk(st, cfg) && ReadyState(st, cfg) && Fits(Last(st.segs), record) && Room(st)
    requires last == Last(AppendLog(st, cfg, record).st.segs)
    ensures |last.index.mmap| == cfg.maxIndexBytes
    ensures var s := Last(st.segs);
            if FillsSegment(s, cfg, record) then last.index.size == 0 && last.store == []
            else last.index.size == s.index.size + 12 && |last.store| == |s.store| + 8 + |record|
  {
    LastOk(st.segs, cfg);
    SizesAfterAppend(Last(st.segs), cfg, record);
    LastAfterAppend(st, cfg, record, last);
  }

  lemma SlotsLeft(size: nat, store: nat, length: nat, cfg: Config)
    requires NeverFills(cfg) && size % 12 == 0 && size + 12 <= cfg.maxIndexBytes && 8 * (size / 12) <= store
    requires size + 12 < cfg.maxIndexBytes && store + 8 + length < cfg.maxStoreBytes
    ensures size + 24 <= cfg.maxIndexBytes && 8 * ((size + 12) / 12) <= store + 8 + length
  {
  }

  lemma AppendKeepsRoom(st: LogState, cfg: Config, record: Record, st': LogState)
    requires StateOk(st, cfg) && Fits(Last(st.segs), record) && ReadyState(st, cfg)
    requires st' == AppendLog(st, cfg, record).st
    requires NeverFills(cfg) && Room(st) && SlotsCost(st)
    ensures Room(st') && SlotsCost(st')
  {
    LastOk(st.segs, cfg);
    LastSizes(st, cfg, record, Last(st'.segs));
    if !FillsSegment(Last(st.segs), cfg, record) {
      SlotsLeft(Last(st.segs).index.size, |Last(st.segs).store|, |record|, cfg);
    }
  }

  lemma CloseKeepsRoom(st: LogState, cfg: Config, st': LogState)
    requires StateOk(st, cfg) && ReadyState(st, cfg) && FilesFit(ClosedAll(st.segs, cfg), cfg)
    requires st' == Reopen(st, cfg, ClosedAll(st.segs, cfg)) && Room(st) && SlotsCost(st)
    ensures StateOk(st', cfg) && Room(st') && SlotsCost(st')
  {
    CloseRefines(st, cfg);
    CloseKeepsLastSizes(st, cfg, Last(st'.segs));
  }

  lemma {:induction false} RoomAlways(states: seq<LogState>, cfg: Config, ops: seq<Op>, k: nat)
    requires History(states, cfg, ops) && AppendsAndCloses(ops) && k <= |ops|
    requires NeverFills(cfg) && Room(states[0]) && SlotsCost(states[0])
    ensures StateOk(states[k], cfg) && Room(states[k]) && SlotsCost(states[k])
  {
    if k > 0 {
      var j := k - 1;
      RoomAlways(states, cfg, ops, j);
      assert Moves(states[j], cfg, ops[j], states[j + 1]);
      if ops[j].Append? {
        AppendRefines(states[j], cfg, ops[j].record);
        AppendKeepsRoom(states[j], cfg, ops[j].record, states[k]);
      } else {
        CloseKeepsRoom(states[j], cfg, states[k]);
      }
    }
  }

  /**
   * From any sound log with room, whatever it has been through: with an index limit that is a multiple of 12, no
   * history of appends and clean reopenings is ever refused an append.
   */
  lemma {:induction false} AppendsNeverRefused(states: seq<LogState>, cfg: Config, ops: seq<Op>, k: nat)
    requires History(states, cfg, ops) && AppendsAndCloses(ops) && k <= |ops|
    requires cfg.maxIndexBytes > 0 && cfg.maxIndexBytes % 12 == 0 && Room(states[0])
    ensures StateOk(states[k], cfg) && Room(states[k])
  {
    if k > 0 {
      var j := k - 1;
      AppendsNeverRefused(states, cfg, ops, j);
      assert Moves(states[j], cfg, ops[j], states[j + 1]);
      if ops[j].Append? {
        AppendRefines(states[j], cfg, ops[j].record);
        RoomAfterAppendIff(states[j], cfg, ops[j].record);
      } else {
        CloseRefines(states[j], cfg);
        CloseKeepsLastSizes(states[j], cfg, Last(states[k].segs));
      }
    }
  }

  /** A log after n empty records, none of which filled its segment. */
  ghost predicate Filling(states: seq<LogState>, cfg: Config, ops: seq<Op>, n: nat) {
    && History(states, cfg, ops) && AppendsAndCloses(ops) && states[0] == NewLog(cfg)
    && HoldsEmpty(states[|ops|], cfg, n)
  }

  ghost predicate HoldsEmpty(st: LogState, cfg: Config, n: nat) {
    StateOk(st, cfg) && Last(st.segs).index.size == 12 * n && |Last(st.segs).store| == 8 * n
  }

  lemma EmptyAppend(st: LogState, cfg: Config, n: nat) returns (st': LogState)
    requires HoldsEmpty(st, cfg, n) && 12 * n + 12 < cfg.maxIndexBytes && 8 * n + 8 < cfg.maxStoreBytes
    ensures Moves(st, cfg, Append([]), st') && HoldsEmpty(st', cfg, n + 1)
  {
    LastOk(st.segs, cfg);
    AppendRefines(st, cfg, []);
    st' := AppendLog(st, cfg, []).st;
    LastSizes(st, cfg, [], Last(st'.segs));
  }

  lemma FillingStep(cfg: Config, n: nat, states: seq<LogState>, ops: seq<Op>)
    returns (states': seq<LogState>, ops': seq<Op>)
    requires Filling(states, cfg, ops, n) && 12 * n + 12 < cfg.maxIndexBytes && 8 * n + 8 < cfg.maxStoreBytes
    ensures Filling(states', cfg, ops', n + 1)
  {
    var st' := EmptyAppend(states[|ops|], cfg, n);
    states', ops' := states + [st'], ops + [Append([])];
    HistoryExtends(states, cfg, ops, Append([]), st');
  }

  lemma {:induction false} FillUp(cfg: Config, n: nat) returns (states: seq<LogState>, ops: seq<Op>)
    requires cfg.maxIndexBytes <= MAX_INDEX_BYTES
    requires n == 0 || (12 * n < cfg.maxIndexBytes && 8 * n < cfg.maxStoreBytes)
    ensures Filling(states, cfg, ops, n)
  {
    if n == 0 {
      NewLogOk(cfg);
      states, ops := [NewLog(cfg)], [];
    } else {
      states, ops := FillUp(cfg, n - 1);
      states, ops := FillingStep(cfg, n - 1, states, ops);
    }
  }

  /** A history of appends and clean reopenings on a new log. */
  ghost predicate FromNewLog(states: seq<LogState>, cfg: Config, ops: seq<Op>) {
    History(states, cfg, ops) && AppendsAndCloses(ops) && states[0] == NewLog(cfg)
  }

  /** No history of appends and clean reopenings on a new log is ever refused an append exactly under this condition. */
  lemma NeverRefusedIff(cfg: Config)
    requires cfg.maxIndexBytes <= MAX_INDEX_BYTES
    ensures NeverFills(cfg) <==>
            forall states, ops {:trigger FromNewLog(states, cfg, ops)} ::
              FromNewLog(states, cfg, ops) ==> Room(states[|ops|])
  {
    NewLogOk(cfg);
    if NeverFills(cfg) {
      forall states, ops | FromNewLog(states, cfg, ops)
        ensures Room(states[|ops|])
      {
        RoomAlways(states, cfg, ops, |ops|);
      }
    } else {
      var n := if cfg.maxIndexBytes < 12 then 0 else cfg.maxIndexBytes / 12;
      var states, ops := FillUp(cfg, n);
      assert FromNewLog(states, cfg, ops);
      LastOk(states[|ops|].segs, cfg);
    }
  }

  /** Such inputs, as a limit of 20 bytes: one slot, and bytes behind it that keep the used-up index from being full. */
  lemma OneSlotIndexFills(cfg: Config, record: Record)
    requires 12 < cfg.maxIndexBytes < 24 && 8 + |record| < cfg.maxStoreBytes && 8 + |record| < U64_LIMIT
    ensures ReadyState(NewLog(cfg), cfg) && Room(NewLog(cfg)) && !Room(AppendLog(NewLog(cfg), cfg, record).st)
  {
    NewLogOk(cfg);
    FirstAppend(cfg, record, AppendLog(NewLog(cfg), cfg, record).st);
  }
}
