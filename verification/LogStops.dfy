/**
 * What an abrupt stop leaves of a log, at whatever moment it comes, and when the next opening finds every record:
 * between operations, within an append, within a truncation, within a close, and within any number of openings after.
 */
module LogStops {
  import opened Bytes
  import opened RaftTypes
  import opened LogStore
  import opened LogIndex
  import opened LogSegment
  import opened SegmentedLog
  import opened LogDirectory

  /**
   * The moment of the stop. AfterStore: the record is in the store and not in the index. BeforeRotate: it is in both,
   * and the segment is full. InRotate: the next segment is being created. InTruncate: `pops` segments are gone and the
   * next one may be half removed. InClose: segments are being closed, or opened again after that.
   */
  datatype Moment =
    | Idle
    | AfterStore(record: Record)
    | BeforeRotate(record: Record)
    | InRotate(record: Record)
    | InTruncate(off: nat, pops: nat)
    | InClose

  /**
   * What the moment of the stop leaves of one segment. Running: the mapped index, and what had left the buffered writer
   * of the store. ClosedDown: closed files. StoreGone: the store file removed, the index file not yet. JustNew: files
   * that exist and are empty.
   */
  datatype Remains = Running(disk: seq<Byte>) | ClosedDown | StoreGone | JustNew

  /** The remains of a segment, with its index file as interrupted openings have left it. */
  datatype Remnant = Remnant(how: Remains, image: seq<Byte>)

  function FilesOf(s: Seg, how: Remains): Files
    requires s.index.size <= |s.index.mmap|
  {
    match how
    case Running(disk) => StoppedFiles(s, disk)
    case ClosedDown => ClosedFiles(s)
    case StoreGone => Files([], Closed(s.index))
    case JustNew => NO_FILES
  }

  /** An opening gives the index file its full length, and its filler if it was empty; it may be stopped in between. */
  predicate Reimaged(file: seq<Byte>, image: seq<Byte>, max: nat) {
    image == file || image == SetLength(file, max) || (file == [] && image == Repeat(0xFF, max))
  }

  function LeftFiles(s: Seg, r: Remnant): Files
    requires s.index.size <= |s.index.mmap|
  {
    Files(FilesOf(s, r.how).store, r.image)
  }

  /** What the moment can leave of a segment. */
  predicate MayRemain(s: Seg, cfg: Config, moment: Moment, last: bool, r: Remnant)
    requires s.index.size <= |s.index.mmap|
  {
    && Reimaged(FilesOf(s, r.how).index, r.image, cfg.maxIndexBytes)
    && match r.how
       case Running(disk) => Leaves(s, cfg, if last && moment.AfterStore? then Framed(moment.record) else [], disk)
       case ClosedDown => moment.InClose? || (last && moment.InTruncate? && s.base > moment.off)
       case StoreGone => last && moment.InTruncate? && s.base > moment.off
       case JustNew => last && moment.InRotate?
  }

  /** An empty index file that has its length and not its filler: the next opening takes its first slot for written. */
  predicate Caught(s: Seg, cfg: Config, r: Remnant)
    requires s.index.size <= |s.index.mmap|
  {
    FilesOf(s, r.how).index == [] && r.image == Repeat(0, cfg.maxIndexBytes) && 12 <= cfg.maxIndexBytes
  }

  /** Every record had left the buffered writer, and a segment without its store file has no slot. */
  predicate Undamaged(s: Seg, cfg: Config, how: Remains)
    requires SegOk(s, cfg)
  {
    match how
    case Running(disk) => Flushed(s, cfg, disk)
    case StoreGone => s.index.size == 0
    case _ => true
  }

  ghost predicate SegKept(s: Seg, cfg: Config, r: Remnant) {
    SegOk(s, cfg) && Undamaged(s, cfg, r.how) && !Caught(s, cfg, r)
  }

  // ---- One segment ----

  lemma StoreGoneIff(s: Seg, cfg: Config)
    requires SegOk(s, cfg)
    ensures Faithful(s, cfg, FilesOf(s, StoreGone))
    ensures Recovers(s, cfg, FilesOf(s, StoreGone)) <==> s.index.size == 0
  {
    var closed, gone := OpenSeg(ClosedFiles(s), s.base, cfg), OpenSeg(FilesOf(s, StoreGone), s.base, cfg);
    CloseSegReopens(s, cfg);
    assert gone == closed.(store := []);
    if s.index.size > 0 {
      assert ReadSlot(gone, 0) == None;
    }
  }

  /** The files as the stop leaves them open to a sound segment exactly if nothing is damaged. */
  lemma RemainsRecoverIff(s: Seg, cfg: Config, pending: seq<Byte>, how: Remains)
    requires SegOk(s, cfg) && (how.Running? ==> how.disk <= s.store + pending)
    requires how.JustNew? ==> s == OpenSeg(NO_FILES, s.base, cfg)
    ensures Faithful(s, cfg, FilesOf(s, how))
    ensures Recovers(s, cfg, FilesOf(s, how)) <==> Undamaged(s, cfg, how)
  {
    match how {
      case Running(disk) => StopSegReopensIff(s, cfg, pending, disk);
      case ClosedDown => CloseSegReopens(s, cfg);
      case StoreGone => StoreGoneIff(s, cfg);
      case JustNew =>
    }
  }

  lemma RemainsIndex(s: Seg, cfg: Config, how: Remains)
    requires SegOk(s, cfg) && (how.JustNew? ==> s == OpenSeg(NO_FILES, s.base, cfg))
    ensures var file := FilesOf(s, how).index;
            && |file| <= cfg.maxIndexBytes && Sound(Opened(file, cfg.maxIndexBytes))
            && Opened(file, cfg.maxIndexBytes).size == s.index.size
            && (file == [] && cfg.maxIndexBytes > 0 ==> s.index.size == 0)
  {
    StopReopens(s.index);
    CloseReopens(s.index);
  }

  /** Interrupted openings leave an index file with the same slots, unless it is caught between length and filler. */
  lemma ImageKeepsSlots(file: seq<Byte>, image: seq<Byte>, max: nat)
    requires |file| <= max && Sound(Opened(file, max)) && Reimaged(file, image, max)
    requires !(file == [] && image == Repeat(0, max) && 12 <= max)
    ensures |image| <= max && Sound(Opened(image, max)) && SameSlots(Opened(file, max), Opened(image, max))
  {
    var t := Opened(file, max);
    if image != file {
      if file == [] && image == Repeat(0xFF, max) {
        StopReopens(t);
      } else if file == [] {
        assert image == Repeat(0, max);
        CreatedHolds(max, Interrupted);
      } else {
        assert image == t.mmap;
        StopReopens(t);
      }
    }
  }

  lemma SameSlotsSameSeg(s: Seg, s': Seg, cfg: Config)
    requires Sound(s.index) && Sound(s'.index) && SameSlots(s.index, s'.index)
    requires s'.base == s.base && s'.next == s.next && s'.store == s.store
    ensures SegOk(s, cfg) <==> SegOk(s', cfg)
    ensures SegOk(s, cfg) ==> Records(s', cfg) == Records(s, cfg)
  {
    assert s.store + [] == s.store;
    if SegOk(s, cfg) {
      SameRecords(s, s', cfg, []);
    }
    if SegOk(s', cfg) {
      SameRecords(s', s, cfg, []);
    }
  }

  /** A segment whose index is not caught opens, with its records, exactly if it is undamaged. */
  lemma RemnantRecoversIff(s: Seg, cfg: Config, pending: seq<Byte>, r: Remnant)
    requires SegOk(s, cfg) && (r.how.Running? ==> r.how.disk <= s.store + pending)
    requires r.how.JustNew? ==> s == OpenSeg(NO_FILES, s.base, cfg)
    requires Reimaged(FilesOf(s, r.how).index, r.image, cfg.maxIndexBytes) && !Caught(s, cfg, r)
    ensures Faithful(s, cfg, LeftFiles(s, r))
    ensures Recovers(s, cfg, LeftFiles(s, r)) <==> Undamaged(s, cfg, r.how)
  {
    var files := FilesOf(s, r.how);
    RemainsRecoverIff(s, cfg, pending, r.how);
    RemainsIndex(s, cfg, r.how);
    ImageKeepsSlots(files.index, r.image, cfg.maxIndexBytes);
    SameSlotsSameSeg(OpenSeg(files, s.base, cfg), OpenSeg(LeftFiles(s, r), s.base, cfg), cfg);
  }

  /** A caught index has no slot, and opens with one. */
  lemma CaughtGainsSlot(s: Seg, cfg: Config, r: Remnant)
    requires SegOk(s, cfg) && cfg.maxIndexBytes <= MAX_INDEX_BYTES && Caught(s, cfg, r)
    requires r.how.JustNew? ==> s == OpenSeg(NO_FILES, s.base, cfg)
    ensures s.index.size == 0 && s.next == s.base
    ensures OpenSeg(LeftFiles(s, r), s.base, cfg).next == s.base + 1
  {
    RemainsIndex(s, cfg, r.how);
    InterruptedIsOneSlot(cfg.maxIndexBytes, r.image);
  }

  // ---- The whole log ----

  /** rems[i] is what the moment can leave of segment i; in a rotation the last segment is the new one. */
  ghost predicate MayLeave(segs: seq<Seg>, cfg: Config, moment: Moment, rems: seq<Remnant>) {
    && Ready(segs, cfg) && |rems| == |segs|
    && (moment.InRotate? ==> Last(segs) == OpenSeg(NO_FILES, Last(segs).base, cfg))
    && forall i {:trigger Remaining(segs, cfg, moment, rems, i)} ::
         0 <= i < |segs| ==> Remaining(segs, cfg, moment, rems, i)
  }

  ghost predicate Remaining(segs: seq<Seg>, cfg: Config, moment: Moment, rems: seq<Remnant>, i: nat) {
    && i < |segs| == |rems| && segs[i].index.size <= |segs[i].index.mmap|
    && MayRemain(segs[i], cfg, moment, i == |segs| - 1, rems[i])
  }

  function LeftAll(segs: seq<Seg>, cfg: Config, rems: seq<Remnant>): (files: seq<Files>)
    requires Ready(segs, cfg) && |rems| == |segs|
    ensures |files| == |segs|
  {
    seq(|segs|, i requires 0 <= i < |segs| => LeftFiles(segs[i], rems[i]))
  }

  ghost predicate AllSegsKept(segs: seq<Seg>, cfg: Config, rems: seq<Remnant>) {
    && |rems| == |segs|
    && forall i {:trigger SegKept(segs[i], cfg, rems[i])} :: 0 <= i < |segs| ==> SegKept(segs[i], cfg, rems[i])
  }

  lemma LeftAllFits(segs: seq<Seg>, cfg: Config, moment: Moment, rems: seq<Remnant>)
    requires MayLeave(segs, cfg, moment, rems)
    ensures FilesFit(LeftAll(segs, cfg, rems), cfg)
  {
    forall i | 0 <= i < |segs|
      ensures |LeftFiles(segs[i], rems[i]).index| <= cfg.maxIndexBytes
    {
      assert Remaining(segs, cfg, moment, rems, i);
    }
  }

  lemma RemnantAt(segs: seq<Seg>, cfg: Config, moment: Moment, rems: seq<Remnant>, i: nat)
    requires LogOk(segs, cfg) && MayLeave(segs, cfg, moment, rems) && i < |segs|
    ensures SegOk(segs[i], cfg)
    ensures i < |segs| - 1 ==> !Caught(segs[i], cfg, rems[i])
    ensures !Caught(segs[i], cfg, rems[i]) ==>
              && Faithful(segs[i], cfg, LeftFiles(segs[i], rems[i]))
              && (Recovers(segs[i], cfg, LeftFiles(segs[i], rems[i])) <==> SegKept(segs[i], cfg, rems[i]))
  {
    assert SegOk(segs[i], cfg);
    assert Remaining(segs, cfg, moment, rems, i);
    var pending := if i == |segs| - 1 && moment.AfterStore? then Framed(moment.record) else [];
    if !Caught(segs[i], cfg, rems[i]) {
      RemnantRecoversIff(segs[i], cfg, pending, rems[i]);
    }
    if i < |segs| - 1 {
      OthersHaveSlots(segs, cfg, i);
      RemainsIndex(segs[i], cfg, rems[i].how);
    }
  }

  lemma UncaughtKeepsIff(st: LogState, cfg: Config, moment: Moment, rems: seq<Remnant>, files: seq<Files>)
    requires StateOk(st, cfg) && MayLeave(st.segs, cfg, moment, rems) && files == LeftAll(st.segs, cfg, rems)
    requires !Caught(Last(st.segs), cfg, rems[|rems| - 1])
    ensures forall i {:trigger Faithful(st.segs[i], cfg, files[i])} ::
              0 <= i < |files| ==> Faithful(st.segs[i], cfg, files[i])
    ensures AllRecover(st.segs, cfg, files) <==> AllSegsKept(st.segs, cfg, rems)
  {
    var segs := st.segs;
    forall i | 0 <= i < |segs|
      ensures Faithful(segs[i], cfg, files[i])
      ensures Recovers(segs[i], cfg, files[i]) <==> SegKept(segs[i], cfg, rems[i])
    {
      RemnantAt(segs, cfg, moment, rems, i);
    }
    if AllRecover(segs, cfg, files) {
      forall i | 0 <= i < |segs|
        ensures SegKept(segs[i], cfg, rems[i])
      {
        assert Recovers(segs[i], cfg, files[i]);
      }
    }
  }

  ghost predicate SameLog(st: LogState, st': LogState, cfg: Config)
    requires StateOk(st, cfg) && StateOk(st', cfg)
  {
    st'.segs[0].base == st.segs[0].base && AllRecords(st'.segs, cfg) == AllRecords(st.segs, cfg)
  }

  /** A caught index adds an offset that nobody wrote, whatever it reads there. */
  lemma CaughtGrows(st: LogState, cfg: Config, moment: Moment, rems: seq<Remnant>, st': LogState)
    requires StateOk(st, cfg) && ReadyState(st, cfg) && MayLeave(st.segs, cfg, moment, rems)
    requires FilesFit(LeftAll(st.segs, cfg, rems), cfg) && st' == Reopen(st, cfg, LeftAll(st.segs, cfg, rems))
    requires Caught(Last(st.segs), cfg, rems[|rems| - 1])
    ensures Last(st.segs).index.size == 0
    ensures StateOk(st', cfg) && st'.segs[0].base == st.segs[0].base ==>
              |AllRecords(st'.segs, cfg)| == |AllRecords(st.segs, cfg)| + 1
  {
    var n := |st.segs| - 1;
    LastOk(st.segs, cfg);
    assert Remaining(st.segs, cfg, moment, rems, n);
    CaughtGainsSlot(st.segs[n], cfg, rems[n]);
    LastReopens(st, cfg, LeftAll(st.segs, cfg, rems), LeftFiles(st.segs[n], rems[n]), Last(st'.segs));
    NextOffsetIs(st.segs, cfg);
    if StateOk(st', cfg) {
      NextOffsetIs(st'.segs, cfg);
    }
  }

  /**
   * The opening after a stop finds a sound log with exactly the records of the moment of the stop if and only if every
   * record had been flushed, no half-removed segment has a slot, and no index was caught between length and filler.
   */
  lemma StopKeepsIff(st: LogState, cfg: Config, moment: Moment, rems: seq<Remnant>, st': LogState)
    requires StateOk(st, cfg) && ReadyState(st, cfg) && MayLeave(st.segs, cfg, moment, rems)
    requires FilesFit(LeftAll(st.segs, cfg, rems), cfg) && st' == Reopen(st, cfg, LeftAll(st.segs, cfg, rems))
    ensures StateOk(st', cfg) && SameLog(st, st', cfg) <==> AllSegsKept(st.segs, cfg, rems)
  {
    var n := |st.segs| - 1;
    if Caught(Last(st.segs), cfg, rems[n]) {
      CaughtGrows(st, cfg, moment, rems, st');
      assert !SegKept(st.segs[n], cfg, rems[n]);
    } else {
      var files := LeftAll(st.segs, cfg, rems);
      UncaughtKeepsIff(st, cfg, moment, rems, files);
      ReopenKeepsIff(st, cfg, files);
    }
  }

  /** The slots of the last segment after a stop that did not come while it was created or removed. */
  lemma StopKeepsLastSizes(st: LogState, cfg: Config, moment: Moment, rems: seq<Remnant>, last: Seg)
    requires StateOk(st, cfg) && ReadyState(st, cfg) && MayLeave(st.segs, cfg, moment, rems)
    requires FilesFit(LeftAll(st.segs, cfg, rems), cfg)
    requires last == Last(Reopen(st, cfg, LeftAll(st.segs, cfg, rems)).segs)
    requires !Caught(Last(st.segs), cfg, rems[|rems| - 1])
    ensures last.index.size == Last(st.segs).index.size && |last.index.mmap| == |Last(st.segs).index.mmap|
  {
    var n := |st.segs| - 1;
    var s, r := st.segs[n], rems[n];
    LastOk(st.segs, cfg);
    assert Remaining(st.segs, cfg, moment, rems, n);
    LastReopens(st, cfg, LeftAll(st.segs, cfg, rems), LeftFiles(s, r), last);
    RemainsIndex(s, cfg, r.how);
    ImageKeepsSlots(FilesOf(s, r.how).index, r.image, cfg.maxIndexBytes);
  }

  // ---- Synchronous writes ----

  /** What can still go wrong with synchronous writes: a half-removed segment with slots, or a caught index. */
  predicate LosesSynced(s: Seg, cfg: Config, r: Remnant)
    requires s.index.size <= |s.index.mmap|
  {
    (r.how.StoreGone? && s.index.size > 0) || Caught(s, cfg, r)
  }

  lemma SyncedSegKeptIff(s: Seg, cfg: Config, moment: Moment, last: bool, r: Remnant)
    requires SegOk(s, cfg) && cfg.syncWrites && MayRemain(s, cfg, moment, last, r)
    ensures SegKept(s, cfg, r) <==> !LosesSynced(s, cfg, r)
  {
    if r.how.Running? {
      SyncedIsFlushed(s, cfg, if last && moment.AfterStore? then Framed(moment.record) else [], r.how.disk);
    }
  }

  /** Only the last segment can be lost then: others are neither being removed nor without slots. */
  lemma SyncedKeepsIff(segs: seq<Seg>, cfg: Config, moment: Moment, rems: seq<Remnant>)
    requires LogOk(segs, cfg) && cfg.syncWrites && MayLeave(segs, cfg, moment, rems)
    ensures AllSegsKept(segs, cfg, rems) <==> !LosesSynced(Last(segs), cfg, rems[|rems| - 1])
  {
    var n := |segs| - 1;
    forall i | 0 <= i < |segs|
      ensures SegKept(segs[i], cfg, rems[i]) <==> i < n || !LosesSynced(segs[n], cfg, rems[n])
    {
      assert SegOk(segs[i], cfg);
      assert Remaining(segs, cfg, moment, rems, i);
      SyncedSegKeptIff(segs[i], cfg, moment, i == n, rems[i]);
      RemnantAt(segs, cfg, moment, rems, i);
    }
    if AllSegsKept(segs, cfg, rems) {
      assert SegKept(segs[n], cfg, rems[n]);
    }
  }
}
