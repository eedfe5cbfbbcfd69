/** Histories in which a stop loses something: an unflushed record, and a half-removed segment. */
module LogLimits {
  import opened Bytes
  import opened RaftTypes
  import opened LogStore
  import opened LogIndex
  import opened LogSegment
  import opened SegmentedLog
  import opened LogDirectory
  import opened LogStops
  import opened LogHistories

  ghost predicate Answers(st: LogState, cfg: Config, record: Record, off: nat) {
    ReadyState(st, cfg) && AppendLog(st, cfg, record).offset == Some(off)
  }

  ghost predicate ReadsAt(st: LogState, cfg: Config, off: nat, r: Option<Record>) {
    ReadyState(st, cfg) && ReadLog(st.segs, cfg, off) == r
  }

  lemma HistoryExtends(states: seq<LogState>, cfg: Config, ops: seq<Op>, op: Op, st: LogState)
    requires History(states, cfg, ops) && Moves(states[|ops|], cfg, op, st)
    ensures History(states + [st], cfg, ops + [op])
  {
    var states', ops' := states + [st], ops + [op];
    forall k | 0 <= k < |ops'|
      ensures Moves(states'[k], cfg, ops'[k], states'[k + 1])
    {
      if k < |ops| {
        assert Moves(states[k], cfg, ops[k], states[k + 1]);
      }
    }
  }

  lemma HistoryBegins(cfg: Config, st: LogState)
    requires StateOk(st, cfg)
    ensures History([st], cfg, [])
  {
  }

  lemma LeftOpens(st: LogState, cfg: Config, moment: Moment, rems: seq<Remnant>, st': LogState, i: nat)
    requires StateOk(st, cfg) && ReadyState(st, cfg) && MayLeave(st.segs, cfg, moment, rems) && i < |st.segs|
    requires FilesFit(LeftAll(st.segs, cfg, rems), cfg) && st' == Reopen(st, cfg, LeftAll(st.segs, cfg, rems))
    ensures |st'.segs| == |st.segs| && |LeftFiles(st.segs[i], rems[i]).index| <= cfg.maxIndexBytes
    ensures st'.segs[i] == OpenSeg(LeftFiles(st.segs[i], rems[i]), st.segs[i].base, cfg)
  {
    ReopenOpensEach(st, cfg, LeftAll(st.segs, cfg, rems));
    assert LeftAll(st.segs, cfg, rems)[i] == LeftFiles(st.segs[i], rems[i]);
  }

  // ---- Reading a slot without its record ----

  /** The log ends in a segment with one slot and without its record, which no other segment's range covers. */
  ghost predicate EndsDangling(st: LogState, cfg: Config, off: nat) {
    && ReadyState(st, cfg)
    && var s := Last(st.segs);
       && Dangling(s, cfg) && s.base == off && s.next == off + 1 && s.index.size == 12 && s.store == []
       && forall i :: 0 <= i < |st.segs| - 1 ==> !InRange(st.segs[i], off)
  }

  lemma OnlyOneReads(st: LogState, cfg: Config, n: nat, off: nat, r: Option<Record>)
    requires ReadyState(st, cfg) && n < |st.segs| && InRange(st.segs[n], off)
    requires forall i :: 0 <= i < n ==> !InRange(st.segs[i], off)
    requires r == ReadSeg(st.segs[n], off)
    ensures ReadsAt(st, cfg, off, r)
  {
  }

  lemma AppendKeepsOthers(st: LogState, cfg: Config, record: Record, st': LogState)
    requires ReadyState(st, cfg) && st' == AppendLog(st, cfg, record).st
    ensures |st'.segs| >= |st.segs| && st'.segs[|st.segs| - 1] == AppendSeg(Last(st.segs), record)
    ensures forall i :: 0 <= i < |st.segs| - 1 ==> st'.segs[i] == st.segs[i]
  {
  }

  /** The offset of the slot cannot be read, and after the next append it reads that append's record. */
  lemma DanglingLogReads(st: LogState, cfg: Config, off: nat, record: Record, st': LogState)
    requires EndsDangling(st, cfg, off) && 24 <= cfg.maxIndexBytes && 8 + |record| < U64_LIMIT
    requires st' == AppendLog(st, cfg, record).st
    ensures ReadsAt(st, cfg, off, None) && ReadsAt(st', cfg, off, Some(record))
  {
    var n, s := |st.segs| - 1, Last(st.segs);
    AppendKeepsOthers(st, cfg, record, st');
    DanglingReadsNothing(s, cfg);
    OnlyOneReads(st, cfg, n, off, None);
    DanglingReadsLater(s, cfg, record, st'.segs[n]);
    OnlyOneReads(st', cfg, n, off, Some(record));
  }

  lemma LaterAppend(st: LogState, cfg: Config, off: nat, record: Record) returns (st': LogState)
    requires EndsDangling(st, cfg, off) && 24 <= cfg.maxIndexBytes && 8 + |record| < U64_LIMIT
    ensures Moves(st, cfg, Append(record), st')
    ensures ReadsAt(st, cfg, off, None) && ReadsAt(st', cfg, off, Some(record))
  {
    st' := AppendLog(st, cfg, record).st;
    DanglingLogReads(st, cfg, off, record, st');
  }

  // ---- An unflushed record ----

  /** One append to a new log that does not fill its segment. */
  lemma FirstAppend(cfg: Config, record: Record, st: LogState)
    requires 12 < cfg.maxIndexBytes <= MAX_INDEX_BYTES
    requires 8 + |record| < cfg.maxStoreBytes && 8 + |record| < U64_LIMIT
    requires ReadyState(NewLog(cfg), cfg) && st == AppendLog(NewLog(cfg), cfg, record).st
    ensures StateOk(st, cfg) && st.segs == [AppendSeg(OpenSeg(NO_FILES, cfg.initialOffset, cfg), record)]
  {
    NewLogOk(cfg);
    AppendRefines(NewLog(cfg), cfg, record);
  }

  lemma AnsweredAppend(cfg: Config, record: Record) returns (st: LogState)
    requires 12 < cfg.maxIndexBytes <= MAX_INDEX_BYTES
    requires 8 + |record| < cfg.maxStoreBytes && 8 + |record| < U64_LIMIT
    ensures Moves(NewLog(cfg), cfg, Append(record), st) && Answers(NewLog(cfg), cfg, record, cfg.initialOffset)
    ensures StateOk(st, cfg) && st.segs == [AppendSeg(OpenSeg(NO_FILES, cfg.initialOffset, cfg), record)]
  {
    NewLogOk(cfg);
    AppendRefines(NewLog(cfg), cfg, record);
    st := AppendLog(NewLog(cfg), cfg, record).st;
    FirstAppend(cfg, record, st);
  }

  /** The stop that leaves nothing of the last append in the only store. */
  function LosesAppend(s: Seg): Op {
    Stop(Idle, [Remnant(Running([]), s.index.mmap)])
  }

  lemma LosesAppendPossible(st: LogState, cfg: Config, op: Op)
    requires StateOk(st, cfg) && |st.segs| == 1 && !cfg.syncWrites && op == LosesAppend(st.segs[0])
    ensures Possible(st, cfg, op)
  {
    SoundIsReady(st.segs, cfg);
    assert Remaining(st.segs, cfg, Idle, op.rems, 0);
  }

  lemma LosesAppendOpens(st: LogState, cfg: Config, op: Op, st': LogState)
    requires StateOk(st, cfg) && |st.segs| == 1 && op == LosesAppend(st.segs[0]) && Moves(st, cfg, op, st')
    ensures |st.segs[0].index.mmap| <= cfg.maxIndexBytes && ReadyState(st', cfg)
    ensures st'.segs == [OpenSeg(StoppedFiles(st.segs[0], []), st.segs[0].base, cfg)]
  {
    LeftAllFits(st.segs, cfg, Idle, op.rems);
    LeftOpens(st, cfg, Idle, op.rems, st', 0);
  }

  lemma FirstRecordDangles(cfg: Config, lost: Record, s: Seg)
    requires 12 < cfg.maxIndexBytes <= MAX_INDEX_BYTES && 8 + |lost| < U64_LIMIT
    requires var first := AppendSeg(OpenSeg(NO_FILES, cfg.initialOffset, cfg), lost);
             s == OpenSeg(StoppedFiles(first, []), cfg.initialOffset, cfg)
    ensures Dangling(s, cfg) && s.base == cfg.initialOffset && s.next == s.base + 1
    ensures s.index.size == 12 && s.store == []
  {
    var empty := OpenSeg(NO_FILES, cfg.initialOffset, cfg);
    NewSegOk(cfg.initialOffset, cfg);
    UnflushedRecordDangles(empty, cfg, lost);
    assert empty.store == [] && s.next == s.base + Count(s.index);
  }

  lemma UnflushedStopDangles(st: LogState, cfg: Config, lost: Record) returns (st': LogState)
    requires 12 < cfg.maxIndexBytes <= MAX_INDEX_BYTES && 8 + |lost| < U64_LIMIT && !cfg.syncWrites
    requires StateOk(st, cfg) && st.segs == [AppendSeg(OpenSeg(NO_FILES, cfg.initialOffset, cfg), lost)]
    ensures Moves(st, cfg, LosesAppend(st.segs[0]), st') && EndsDangling(st', cfg, cfg.initialOffset)
  {
    var op := LosesAppend(st.segs[0]);
    LosesAppendPossible(st, cfg, op);
    st' := Exec(st, cfg, op);
    LosesAppendOpens(st, cfg, op, st');
    FirstRecordDangles(cfg, lost, st'.segs[0]);
  }

  lemma AnsweredHistory(cfg: Config, record: Record) returns (states: seq<LogState>, ops: seq<Op>)
    requires 12 < cfg.maxIndexBytes <= MAX_INDEX_BYTES
    requires 8 + |record| < cfg.maxStoreBytes && 8 + |record| < U64_LIMIT
    ensures History(states, cfg, ops) && ops == [Append(record)] && StateOk(states[1], cfg)
    ensures Answers(states[0], cfg, record, cfg.initialOffset)
    ensures states[1].segs == [AppendSeg(OpenSeg(NO_FILES, cfg.initialOffset, cfg), record)]
  {
    NewLogOk(cfg);
    var st := AnsweredAppend(cfg, record);
    HistoryBegins(cfg, NewLog(cfg));
    HistoryExtends([NewLog(cfg)], cfg, [], Append(record), st);
    states, ops := [NewLog(cfg)] + [st], [] + [Append(record)];
  }

  lemma UnflushedHistory(cfg: Config, lost: Record) returns (states: seq<LogState>, ops: seq<Op>)
    requires !cfg.syncWrites && 24 <= cfg.maxIndexBytes <= MAX_INDEX_BYTES
    requires 8 + |lost| < cfg.maxStoreBytes && 8 + |lost| < U64_LIMIT
    ensures History(states, cfg, ops) && |ops| == 2
    ensures ops[0] == Append(lost) && ops[1].Stop? && ops[1].moment == Idle
    ensures Answers(states[0], cfg, lost, cfg.initialOffset) && EndsDangling(states[2], cfg, cfg.initialOffset)
  {
    var s, t := AnsweredHistory(cfg, lost);
    var st := UnflushedStopDangles(s[1], cfg, lost);
    HistoryExtends(s, cfg, t, LosesAppend(s[1].segs[0]), st);
    states, ops := s + [st], t + [LosesAppend(s[1].segs[0])];
  }

  /**
   * Without synchronous writes a stop can lose an answered append: afterwards its offset cannot be read, and after the
   * next append it reads that append's record.
   */
  lemma UnflushedStopReadsWrong(cfg: Config, lost: Record, record: Record)
    returns (states: seq<LogState>, ops: seq<Op>)
    requires !cfg.syncWrites && 24 <= cfg.maxIndexBytes <= MAX_INDEX_BYTES && 8 + |lost| < cfg.maxStoreBytes
    requires 8 + |lost| < U64_LIMIT && 8 + |record| < U64_LIMIT
    ensures History(states, cfg, ops) && |ops| == 3
    ensures ops[0] == Append(lost) && ops[1].Stop? && ops[1].moment == Idle && ops[2] == Append(record)
    ensures Answers(states[0], cfg, lost, cfg.initialOffset)
    ensures ReadsAt(states[2], cfg, cfg.initialOffset, None)
    ensures ReadsAt(states[3], cfg, cfg.initialOffset, Some(record))
  {
    var s, t := UnflushedHistory(cfg, lost);
    var st := LaterAppend(s[2], cfg, cfg.initialOffset, record);
    HistoryExtends(s, cfg, t, Append(record), st);
    states, ops := s + [st], t + [Append(record)];
  }

  // ---- A half-removed segment ----

  function NewSeg(cfg: Config, base: nat): Seg {
    OpenSeg(NO_FILES, base, cfg)
  }

  /** A record that fills the first segment, and one that does not fill the second. */
  predicate FillsFirstOnly(cfg: Config, first: Record, second: Record) {
    && 24 <= cfg.maxIndexBytes <= MAX_INDEX_BYTES
    && 8 + |second| < cfg.maxStoreBytes <= 8 + |first| < U64_LIMIT
  }

  lemma FillingAppend(cfg: Config, first: Record, second: Record, st: LogState)
    requires FillsFirstOnly(cfg, first, second)
    requires ReadyState(NewLog(cfg), cfg) && st == AppendLog(NewLog(cfg), cfg, first).st
    ensures StateOk(st, cfg)
    ensures st.segs == [AppendSeg(NewSeg(cfg, cfg.initialOffset), first), NewSeg(cfg, cfg.initialOffset + 1)]
  {
    NewLogOk(cfg);
    AppendRefines(NewLog(cfg), cfg, first);
    LastAfterAppend(NewLog(cfg), cfg, first, Last(st.segs));
  }

  lemma SecondAppend(cfg: Config, first: Record, second: Record, st: LogState, st': LogState)
    requires FillsFirstOnly(cfg, first, second) && StateOk(st, cfg) && ReadyState(st, cfg)
    requires st.segs == [AppendSeg(NewSeg(cfg, cfg.initialOffset), first), NewSeg(cfg, cfg.initialOffset + 1)]
    requires st' == AppendLog(st, cfg, second).st
    ensures StateOk(st', cfg) && Answers(st, cfg, second, cfg.initialOffset + 1)
    ensures st'.segs == [st.segs[0], AppendSeg(NewSeg(cfg, cfg.initialOffset + 1), second)]
  {
    AppendRefines(st, cfg, second);
  }

  /** A segment with one record whose store file is gone. */
  lemma StoreGoneDangles(s: Seg, cfg: Config)
    requires SegOk(s, cfg) && s.index.size == 12 && SlotPosition(s.index.mmap, 0) == 0
    ensures var gone := OpenSeg(FilesOf(s, StoreGone), s.base, cfg);
            && Dangling(gone, cfg) && gone.base == s.base && gone.next == s.base + 1
            && gone.index.size == 12 && gone.store == []
  {
    CloseReopens(s.index);
    SameSlotsReadAlike(s.index, Opened(Closed(s.index), cfg.maxIndexBytes));
  }

  /** The truncation to the first offset stops between the removals of the second segment's two files. */
  function HalfRemoves(off: nat, segs: seq<Seg>): Op
    requires |segs| == 2 && segs[1].index.size <= |segs[1].index.mmap|
  {
    Stop(InTruncate(off, 0), [Remnant(Running(segs[0].store), segs[0].index.mmap),
                              Remnant(StoreGone, Closed(segs[1].index))])
  }

  lemma HalfRemovalPossible(st: LogState, cfg: Config, op: Op)
    requires StateOk(st, cfg) && |st.segs| == 2 && st.segs[1].base > st.segs[0].base
    requires st.segs[1].index.size <= |st.segs[1].index.mmap| && op == HalfRemoves(st.segs[0].base, st.segs)
    ensures Possible(st, cfg, op)
  {
    var segs := st.segs;
    SoundIsReady(segs, cfg);
    assert segs[0].store + [] == segs[0].store;
    assert Remaining(segs, cfg, op.moment, op.rems, 0);
    assert Remaining(segs, cfg, op.moment, op.rems, 1);
  }

  lemma FlushedOpensSame(s: Seg, cfg: Config)
    requires SegOk(s, cfg)
    ensures OpenSeg(StoppedFiles(s, s.store), s.base, cfg) == s
  {
    assert s.store + [] == s.store;
    StopSegReopensIff(s, cfg, [], s.store);
  }

  lemma HalfRemovalOpens(st: LogState, cfg: Config, op: Op, st': LogState)
    requires StateOk(st, cfg) && |st.segs| == 2 && st.segs[1].index.size <= |st.segs[1].index.mmap|
    requires op == HalfRemoves(st.segs[0].base, st.segs) && Moves(st, cfg, op, st')
    ensures |Closed(st.segs[1].index)| <= cfg.maxIndexBytes && ReadyState(st', cfg)
    ensures st'.segs == [st.segs[0], OpenSeg(FilesOf(st.segs[1], StoreGone), st.segs[1].base, cfg)]
  {
    assert Midway(st, cfg, op.moment) == st;
    LeftAllFits(st.segs, cfg, op.moment, op.rems);
    LeftOpens(st, cfg, op.moment, op.rems, st', 0);
    LeftOpens(st, cfg, op.moment, op.rems, st', 1);
    assert SegOk(st.segs[0], cfg);
    FlushedOpensSame(st.segs[0], cfg);
  }

  lemma HalfRemovalDangles(st: LogState, cfg: Config) returns (st': LogState)
    requires StateOk(st, cfg) && |st.segs| == 2 && st.segs[1].base == st.segs[0].next > st.segs[0].base
    requires st.segs[1].index.size == 12 <= |st.segs[1].index.mmap| && SlotPosition(st.segs[1].index.mmap, 0) == 0
    ensures Moves(st, cfg, HalfRemoves(st.segs[0].base, st.segs), st') && EndsDangling(st', cfg, st.segs[1].base)
  {
    var op := HalfRemoves(st.segs[0].base, st.segs);
    HalfRemovalPossible(st, cfg, op);
    st' := Exec(st, cfg, op);
    HalfRemovalOpens(st, cfg, op, st');
    assert SegOk(st.segs[1], cfg);
    StoreGoneDangles(st.segs[1], cfg);
  }

  lemma SecondSlot(cfg: Config, second: Record, s: Seg)
    requires 24 <= cfg.maxIndexBytes <= MAX_INDEX_BYTES && s == AppendSeg(NewSeg(cfg, cfg.initialOffset + 1), second)
    ensures s.index.size == 12 <= |s.index.mmap| && SlotPosition(s.index.mmap, 0) == 0
  {
    NewSegOk(cfg.initialOffset + 1, cfg);
    WriteKeepsSound(NewSeg(cfg, cfg.initialOffset + 1).index, 0);
  }

  lemma FirstHistory(cfg: Config, first: Record, second: Record) returns (states: seq<LogState>, ops: seq<Op>)
    requires FillsFirstOnly(cfg, first, second)
    ensures History(states, cfg, ops) && ops == [Append(first)] && StateOk(states[1], cfg)
    ensures states[1].segs == [AppendSeg(NewSeg(cfg, cfg.initialOffset), first), NewSeg(cfg, cfg.initialOffset + 1)]
  {
    NewLogOk(cfg);
    var st := AppendLog(NewLog(cfg), cfg, first).st;
    FillingAppend(cfg, first, second, st);
    HistoryBegins(cfg, NewLog(cfg));
    HistoryExtends([NewLog(cfg)], cfg, [], Append(first), st);
    states, ops := [NewLog(cfg)] + [st], [] + [Append(first)];
  }

  /** A log of two segments with a record each. */
  lemma SecondHistory(cfg: Config, first: Record, second: Record) returns (states: seq<LogState>, ops: seq<Op>)
    requires FillsFirstOnly(cfg, first, second)
    ensures History(states, cfg, ops) && ops == [Append(first), Append(second)] && StateOk(states[2], cfg)
    ensures Answers(states[1], cfg, second, cfg.initialOffset + 1)
    ensures var segs := states[2].segs;
            && |segs| == 2 && segs[0].base == cfg.initialOffset && segs[1].base == segs[0].next == cfg.initialOffset + 1
            && segs[1].index.size == 12 <= |segs[1].index.mmap| && SlotPosition(segs[1].index.mmap, 0) == 0
  {
    var s, t := FirstHistory(cfg, first, second);
    SoundIsReady(s[1].segs, cfg);
    var st := AppendLog(s[1], cfg, second).st;
    SecondAppend(cfg, first, second, s[1], st);
    SecondSlot(cfg, second, st.segs[1]);
    HistoryExtends(s, cfg, t, Append(second), st);
    states, ops := s + [st], t + [Append(second)];
  }

  lemma HalfRemovalHistory(cfg: Config, first: Record, second: Record) returns (states: seq<LogState>, ops: seq<Op>)
    requires FillsFirstOnly(cfg, first, second)
    ensures History(states, cfg, ops) && |ops| == 3 && ops[0] == Append(first) && ops[1] == Append(second)
    ensures ops[2].Stop? && ops[2].moment == InTruncate(cfg.initialOffset, 0)
    ensures Answers(states[1], cfg, second, cfg.initialOffset + 1)
    ensures EndsDangling(states[3], cfg, cfg.initialOffset + 1)
  {
    var s, t := SecondHistory(cfg, first, second);
    var st := HalfRemovalDangles(s[2], cfg);
    var op := HalfRemoves(cfg.initialOffset, s[2].segs);
    HistoryExtends(s, cfg, t, op, st);
    states, ops := s + [st], t + [op];
  }

  /**
   * Also with synchronous writes: a truncation that is stopped between the two file removals of a segment leaves its
   * slots behind. The removed offset is in range and cannot be read, and after the next append it reads that record.
   */
  lemma HalfRemovedReadsWrong(cfg: Config, first: Record, second: Record, record: Record)
    returns (states: seq<LogState>, ops: seq<Op>)
    requires FillsFirstOnly(cfg, first, second) && 8 + |record| < U64_LIMIT
    ensures History(states, cfg, ops) && |ops| == 4
    ensures ops[0] == Append(first) && ops[1] == Append(second) && ops[3] == Append(record)
    ensures ops[2].Stop? && ops[2].moment == InTruncate(cfg.initialOffset, 0)
    ensures Answers(states[1], cfg, second, cfg.initialOffset + 1)
    ensures ReadsAt(states[3], cfg, cfg.initialOffset + 1, None)
    ensures ReadsAt(states[4], cfg, cfg.initialOffset + 1, Some(record))
  {
    var s, t := HalfRemovalHistory(cfg, first, second);
    var st := LaterAppend(s[3], cfg, cfg.initialOffset + 1, record);
    HistoryExtends(s, cfg, t, Append(record), st);
    states, ops := s + [st], t + [Append(record)];
  }
}
