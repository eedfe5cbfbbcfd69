/** The segmented log of `src/log.rs` as a value, and its refinement of a plain sequence of records. */
module SegmentedLog {
  import opened Bytes
  import opened RaftTypes
  import opened LogStore
  import opened LogIndex
  import opened LogSegment
  import opened RecordChunks

  ghost predicate SegsOk(segs: seq<Seg>, cfg: Config) {
    forall i {:trigger SegOk(segs[i], cfg)} :: 0 <= i < |segs| ==> SegOk(segs[i], cfg)
  }

  function ChunkOf(s: Seg, cfg: Config): Chunk
    requires SegOk(s, cfg)
  {
    Chunk(s.base, Records(s, cfg))
  }

  ghost function Chunks(segs: seq<Seg>, cfg: Config): (cs: seq<Chunk>)
    requires SegsOk(segs, cfg)
    ensures |cs| == |segs|
  {
    seq(|segs|, i requires 0 <= i < |segs| => assert SegOk(segs[i], cfg); ChunkOf(segs[i], cfg))
  }

  /** Chunk i stands for segment i: same range, and the records that the segment reads. */
  lemma ChunkAt(segs: seq<Seg>, cfg: Config, i: nat)
    requires SegsOk(segs, cfg) && i < |segs|
    ensures Chunks(segs, cfg)[i].base == segs[i].base && Chunks(segs, cfg)[i].Next() == segs[i].next
    ensures segs[i].index.size <= |segs[i].index.mmap|
    ensures forall off: nat :: InRange(segs[i], off) ==>
              ReadSeg(segs[i], off) == Some(Chunks(segs, cfg)[i].records[off - segs[i].base])
  {
    assert SegOk(segs[i], cfg);
    forall off: nat | InRange(segs[i], off)
      ensures ReadSeg(segs[i], off) == Some(Records(segs[i], cfg)[off - segs[i].base])
    {
      assert ReadSlot(segs[i], off - segs[i].base) != None;
    }
  }

  /** Sound segments, contiguous, all but the last with at least one record. */
  ghost predicate LogOk(segs: seq<Seg>, cfg: Config) {
    && segs != []
    && cfg.maxIndexBytes <= MAX_INDEX_BYTES
    && SegsOk(segs, cfg)
    && Contiguous(Chunks(segs, cfg))
  }

  /** The log as a plain sequence: the records of all segments in order. */
  ghost function AllRecords(segs: seq<Seg>, cfg: Config): seq<Record>
    requires SegsOk(segs, cfg)
  {
    Flat(Chunks(segs, cfg))
  }

  function Last(segs: seq<Seg>): Seg
    requires segs != []
  {
    segs[|segs| - 1]
  }

  lemma LastOk(segs: seq<Seg>, cfg: Config)
    requires LogOk(segs, cfg)
    ensures SegOk(Last(segs), cfg)
    ensures Chunks(segs, cfg)[|segs| - 1] == ChunkOf(Last(segs), cfg)
  {
    assert SegOk(segs[|segs| - 1], cfg);
  }

  lemma NextOffsetIs(segs: seq<Seg>, cfg: Config)
    requires LogOk(segs, cfg)
    ensures Last(segs).base <= Last(segs).next == segs[0].base + |AllRecords(segs, cfg)|
  {
    ChunkAt(segs, cfg, 0);
    ChunkAt(segs, cfg, |segs| - 1);
    FlatExtent(Chunks(segs, cfg));
  }

  lemma PrefixOk(segs: seq<Seg>, cfg: Config, k: nat)
    requires SegsOk(segs, cfg) && k <= |segs|
    ensures SegsOk(segs[..k], cfg) && Chunks(segs[..k], cfg) == Chunks(segs, cfg)[..k]
    ensures Contiguous(Chunks(segs, cfg)) ==> Contiguous(Chunks(segs[..k], cfg))
  {
    forall i | 0 <= i < k
      ensures SegOk(segs[..k][i], cfg)
    {
      assert SegOk(segs[i], cfg);
    }
    if Contiguous(Chunks(segs, cfg)) {
      ContiguousPrefix(Chunks(segs, cfg), k);
    }
  }

  lemma AddedOk(segs: seq<Seg>, cfg: Config, s: Seg)
    requires SegsOk(segs, cfg) && SegOk(s, cfg)
    ensures SegsOk(segs + [s], cfg) && Chunks(segs + [s], cfg) == Chunks(segs, cfg) + [ChunkOf(s, cfg)]
  {
    forall i | 0 <= i <= |segs|
      ensures SegOk((segs + [s])[i], cfg)
    {
      if i < |segs| {
        assert SegOk(segs[i], cfg);
      }
    }
  }

  /** Enough to run the operations without going out of bounds; every sound log is ready. */
  predicate Ready(segs: seq<Seg>, cfg: Config) {
    && segs != []
    && forall i :: 0 <= i < |segs| ==>
         && segs[i].base <= segs[i].next
         && segs[i].index.size <= |segs[i].index.mmap| == cfg.maxIndexBytes
  }

  lemma SoundIsReady(segs: seq<Seg>, cfg: Config)
    requires LogOk(segs, cfg)
    ensures Ready(segs, cfg)
  {
    forall i | 0 <= i < |segs|
      ensures segs[i].base <= segs[i].next && segs[i].index.size <= |segs[i].index.mmap| == cfg.maxIndexBytes
    {
      assert SegOk(segs[i], cfg);
    }
  }

  // ---- The directory ----

  /** The segment files of a directory by base offset; a missing file of a pair counts as empty. */
  type Directory = map<nat, Files>

  predicate DirectoryFits(dir: Directory, cfg: Config) {
    forall b :: b in dir ==> |dir[b].index| <= cfg.maxIndexBytes
  }

  /**
   * An open log and its directory. `dir` says which files exist and what they held when they were last opened or
   * created; what the files of open segments hold by now is in `segs`.
   */
  datatype LogState = LogState(segs: seq<Seg>, dir: Directory)

  predicate ReadyState(st: LogState, cfg: Config) {
    Ready(st.segs, cfg) && DirectoryFits(st.dir, cfg)
  }

  function BaseSet(segs: seq<Seg>): set<nat> {
    set i | 0 <= i < |segs| :: segs[i].base
  }

  /** The directory has files for exactly the open segments. */
  predicate Tidy(st: LogState) {
    st.dir.Keys == BaseSet(st.segs)
  }

  /** A sound log over a directory that holds its files and no others. */
  ghost predicate StateOk(st: LogState, cfg: Config) {
    LogOk(st.segs, cfg) && Tidy(st) && DirectoryFits(st.dir, cfg)
  }

  lemma BaseSetGrows(segs: seq<Seg>, s: Seg)
    ensures BaseSet(segs + [s]) == BaseSet(segs) + {s.base}
  {
    var more := segs + [s];
    assert more[|segs|] == s;
    forall i | 0 <= i < |segs|
      ensures segs[i].base in BaseSet(more)
    {
      assert more[i] == segs[i];
    }
  }

  // ---- Reading ----

  /** The first segment from `cur` on whose range holds the offset, or the number of segments. */
  function Find(segs: seq<Seg>, off: nat, cur: nat): (i: nat)
    requires cur <= |segs|
    ensures cur <= i <= |segs|
    ensures forall j :: cur <= j < i ==> !InRange(segs[j], off)
    ensures i < |segs| ==> InRange(segs[i], off)
    decreases |segs| - cur
  {
    if cur < |segs| && !InRange(segs[cur], off) then Find(segs, off, cur + 1) else cur
  }

  function ReadLog(segs: seq<Seg>, cfg: Config, off: nat): Option<Record>
    requires Ready(segs, cfg)
  {
    var i := Find(segs, off, 0);
    if i >= |segs| then None else ReadSeg(segs[i], off)
  }

  lemma FoundRead(segs: seq<Seg>, cfg: Config, off: nat, i: nat)
    requires LogOk(segs, cfg) && i < |segs| && InRange(segs[i], off)
    ensures segs[i].index.size <= |segs[i].index.mmap|
    ensures segs[0].base <= off < segs[0].base + |AllRecords(segs, cfg)|
    ensures ReadSeg(segs[i], off) == Some(AllRecords(segs, cfg)[off - segs[0].base])
  {
    ChunkAt(segs, cfg, 0);
    ChunkAt(segs, cfg, i);
    var cs, j := Chunks(segs, cfg), off - segs[i].base;
    assert ReadSeg(segs[i], off) == Some(cs[i].records[j]);
    FlatAt(cs, i, j);
  }

  lemma SegmentFor(segs: seq<Seg>, cfg: Config, off: nat) returns (i: nat)
    requires LogOk(segs, cfg) && segs[0].base <= off < segs[0].base + |AllRecords(segs, cfg)|
    ensures i < |segs| && InRange(segs[i], off)
  {
    ChunkAt(segs, cfg, 0);
    FlatExtent(Chunks(segs, cfg));
    i := ChunkFor(Chunks(segs, cfg), off);
    ChunkAt(segs, cfg, i);
  }

  /** A read returns exactly the record at that offset of the sequence, and fails exactly outside its range. */
  lemma ReadRefines(segs: seq<Seg>, cfg: Config, off: nat)
    requires LogOk(segs, cfg)
    ensures Ready(segs, cfg)
    ensures ReadLog(segs, cfg, off) ==
            if segs[0].base <= off < segs[0].base + |AllRecords(segs, cfg)|
            then Some(AllRecords(segs, cfg)[off - segs[0].base]) else None
  {
    SoundIsReady(segs, cfg);
    var i := Find(segs, off, 0);
    if segs[0].base <= off < segs[0].base + |AllRecords(segs, cfg)| {
      var j := SegmentFor(segs, cfg, off);
    }
    if i < |segs| {
      FoundRead(segs, cfg, off, i);
    }
  }

  // ---- Appending ----

  datatype Appended = Appended(st: LogState, offset: Option<nat>)

  function WithLast(segs: seq<Seg>, s: Seg): seq<Seg>
    requires segs != []
  {
    segs[..|segs| - 1] + [s]
  }

  /** The files that opening a segment finds under its name; it creates them if there are none. */
  function FilesAt(dir: Directory, base: nat): Files {
    if base in dir then dir[base] else NO_FILES
  }

  function Rotate(st: LogState, cfg: Config, base: nat): LogState
    requires DirectoryFits(st.dir, cfg)
  {
    LogState(st.segs + [OpenSeg(FilesAt(st.dir, base), base, cfg)], st.dir[base := FilesAt(st.dir, base)])
  }

  function AppendLog(st: LogState, cfg: Config, record: Record): (a: Appended)
    requires ReadyState(st, cfg)
    ensures ReadyState(a.st, cfg)
  {
    var s := Last(st.segs);
    var s' := AppendSeg(s, record);
    var st' := st.(segs := WithLast(st.segs, s'));
    if !HasRoom(s.index) then Appended(st', None)
    else if IsMaxed(s', cfg) then Appended(Rotate(st', cfg, s.next + 1), Some(s.next))
    else Appended(st', Some(s.next))
  }

  /** An append whose rotation fails: the record is in the log, and the append is answered with an error. */
  function AppendUnrotated(st: LogState, cfg: Config, record: Record): (a: Appended)
    requires ReadyState(st, cfg)
    ensures ReadyState(a.st, cfg)
  {
    var s := Last(st.segs);
    var s' := AppendSeg(s, record);
    Appended(st.(segs := WithLast(st.segs, s')), if HasRoom(s.index) && !IsMaxed(s', cfg) then Some(s.next) else None)
  }

  /** Replacing the last segment by a sound one with the same base and more records adds those records. */
  lemma WithLastRefines(segs: seq<Seg>, cfg: Config, s: Seg, more: seq<Record>)
    requires LogOk(segs, cfg) && SegOk(s, cfg) && SegOk(Last(segs), cfg)
    requires ChunkOf(s, cfg) == Chunk(Last(segs).base, Records(Last(segs), cfg) + more)
    ensures LogOk(WithLast(segs, s), cfg) && WithLast(segs, s)[0].base == segs[0].base
    ensures AllRecords(WithLast(segs, s), cfg) == AllRecords(segs, cfg) + more
  {
    var n, cs := |segs| - 1, Chunks(segs, cfg);
    LastOk(segs, cfg);
    PrefixOk(segs, cfg, n);
    AddedOk(segs[..n], cfg, s);
    GrowLast(cs, more);
  }

  lemma RotateRefines(segs: seq<Seg>, cfg: Config)
    requires LogOk(segs, cfg) && Last(segs).base < Last(segs).next
    ensures var segs' := segs + [OpenSeg(NO_FILES, Last(segs).next, cfg)];
            LogOk(segs', cfg) && segs'[0] == segs[0] && AllRecords(segs', cfg) == AllRecords(segs, cfg)
  {
    var added := OpenSeg(NO_FILES, Last(segs).next, cfg);
    LastOk(segs, cfg);
    NewSegOk(Last(segs).next, cfg);
    AddedOk(segs, cfg, added);
    ContiguousAppend(Chunks(segs, cfg), ChunkOf(added, cfg));
    FlatAppend(Chunks(segs, cfg), ChunkOf(added, cfg));
  }

  lemma AppendLastRefines(segs: seq<Seg>, cfg: Config, record: Record)
    requires LogOk(segs, cfg) && Fits(Last(segs), record)
    ensures Last(segs).base <= Last(segs).next
    ensures var segs' := WithLast(segs, AppendSeg(Last(segs), record));
            && LogOk(segs', cfg) && segs'[0].base == segs[0].base
            && AllRecords(segs', cfg) == AllRecords(segs, cfg) + (if HasRoom(Last(segs).index) then [record] else [])
  {
    LastOk(segs, cfg);
    AppendSegRefines(Last(segs), record, cfg);
    WithLastRefines(segs, cfg, AppendSeg(Last(segs), record), if HasRoom(Last(segs).index) then [record] else []);
  }

  lemma WithLastBases(segs: seq<Seg>, s: Seg)
    requires segs != [] && s.base == Last(segs).base
    ensures BaseSet(WithLast(segs, s)) == BaseSet(segs)
  {
    var n := |segs| - 1;
    BaseSetGrows(segs[..n], s);
    BaseSetGrows(segs[..n], segs[n]);
    assert segs == segs[..n] + [segs[n]];
  }

  /** Nothing in a tidy directory has the name that the next segment will have, so it starts with empty files. */
  lemma NextBaseIsNew(st: LogState, cfg: Config)
    requires LogOk(st.segs, cfg) && Tidy(st) && Last(st.segs).base < Last(st.segs).next
    ensures FilesAt(st.dir, Last(st.segs).next) == NO_FILES
  {
    SegmentBasesRise(st.segs, cfg);
  }

  lemma RotateKeepsOk(st: LogState, cfg: Config)
    requires StateOk(st, cfg) && Last(st.segs).base < Last(st.segs).next
    ensures var st' := Rotate(st, cfg, Last(st.segs).next);
            && StateOk(st', cfg) && st'.segs[0] == st.segs[0] && AllRecords(st'.segs, cfg) == AllRecords(st.segs, cfg)
  {
    var base := Last(st.segs).next;
    NextBaseIsNew(st, cfg);
    RotateRefines(st.segs, cfg);
    BaseSetGrows(st.segs, OpenSeg(NO_FILES, base, cfg));
  }

  lemma AppendUnrotatedRefines(st: LogState, cfg: Config, record: Record)
    requires StateOk(st, cfg) && Fits(Last(st.segs), record)
    ensures ReadyState(st, cfg)
    ensures var a, room := AppendUnrotated(st, cfg, record), HasRoom(Last(st.segs).index);
            && StateOk(a.st, cfg) && a.st.segs[0].base == st.segs[0].base
            && AllRecords(a.st.segs, cfg) == AllRecords(st.segs, cfg) + (if room then [record] else [])
            && a.offset == if room && !IsMaxed(AppendSeg(Last(st.segs), record), cfg)
                           then Some(st.segs[0].base + |AllRecords(st.segs, cfg)|) else None
  {
    SoundIsReady(st.segs, cfg);
    NextOffsetIs(st.segs, cfg);
    AppendLastRefines(st.segs, cfg, record);
    WithLastBases(st.segs, AppendSeg(Last(st.segs), record));
  }

  /** An append is an append without rotation, and then a rotation if the segment is full. */
  lemma AppendThenRotate(st: LogState, cfg: Config, record: Record, mid: LogState)
    requires StateOk(st, cfg) && ReadyState(st, cfg) && mid == AppendUnrotated(st, cfg, record).st && mid.segs != []
    ensures var a, s := AppendLog(st, cfg, record), Last(st.segs);
            if HasRoom(s.index) && IsMaxed(AppendSeg(s, record), cfg) then
              && Last(mid.segs).base < Last(mid.segs).next && DirectoryFits(mid.dir, cfg)
              && a.st == Rotate(mid, cfg, Last(mid.segs).next) && a.offset == Some(s.next)
            else a == AppendUnrotated(st, cfg, record)
  {
    LastOk(st.segs, cfg);
    assert Last(mid.segs) == AppendSeg(Last(st.segs), record);
  }

  /**
   * An append extends the sequence by the record, at the next offset, exactly if the last segment has a free slot.
   * The directory then still has exactly the files of the segments.
   */
  lemma AppendRefines(st: LogState, cfg: Config, record: Record)
    requires StateOk(st, cfg) && Fits(Last(st.segs), record)
    ensures ReadyState(st, cfg)
    ensures var a, room := AppendLog(st, cfg, record), HasRoom(Last(st.segs).index);
            && StateOk(a.st, cfg) && a.st.segs[0].base == st.segs[0].base
            && AllRecords(a.st.segs, cfg) == AllRecords(st.segs, cfg) + (if room then [record] else [])
            && a.offset == if room then Some(st.segs[0].base + |AllRecords(st.segs, cfg)|) else None
  {
    AppendUnrotatedRefines(st, cfg, record);
    NextOffsetIs(st.segs, cfg);
    var mid := AppendUnrotated(st, cfg, record).st;
    AppendThenRotate(st, cfg, record, mid);
    if HasRoom(Last(st.segs).index) && IsMaxed(AppendSeg(Last(st.segs), record), cfg) {
      RotateKeepsOk(mid, cfg);
    }
  }

  // ---- Room for the next append ----

  /** After a successful append the next one finds a free slot exactly under this condition. */
  predicate LeavesRoom(s: Seg, cfg: Config, record: Record) {
    if s.index.size + 12 == cfg.maxIndexBytes || |s.store| + 8 + |record| >= cfg.maxStoreBytes
    then 12 <= cfg.maxIndexBytes
    else s.index.size + 24 <= cfg.maxIndexBytes
  }

  /** The last segment after an append: a new, empty one exactly if the append filled the old one. */
  lemma LastAfterAppend(st: LogState, cfg: Config, record: Record, last: Seg)
    requires StateOk(st, cfg) && ReadyState(st, cfg) && Fits(Last(st.segs), record)
    requires last == Last(AppendLog(st, cfg, record).st.segs)
    ensures var s' := AppendSeg(Last(st.segs), record);
            last == if HasRoom(Last(st.segs).index) && IsMaxed(s', cfg) then OpenSeg(NO_FILES, s'.next, cfg) else s'
  {
    var segs := st.segs;
    AppendLastRefines(segs, cfg, record);
    var s' := AppendSeg(Last(segs), record);
    WithLastBases(segs, s');
    if HasRoom(Last(segs).index) && IsMaxed(s', cfg) {
      NextBaseIsNew(st.(segs := WithLast(segs, s')), cfg);
    }
  }

  lemma SizesAfterAppend(s: Seg, cfg: Config, record: Record)
    requires SegOk(s, cfg)
    ensures var s' := AppendSeg(s, record);
            && |s'.store| == |s.store| + 8 + |record| && |s'.index.mmap| == cfg.maxIndexBytes
            && s'.index.size == s.index.size + (if HasRoom(s.index) then 12 else 0)
    ensures var empty := OpenSeg(NO_FILES, s.next + 1, cfg);
            empty.store == [] && empty.index.size == 0 && |empty.index.mmap| == cfg.maxIndexBytes
  {
  }

  lemma RoomAfterAppendIff(st: LogState, cfg: Config, record: Record)
    requires StateOk(st, cfg) && Fits(Last(st.segs), record) && HasRoom(Last(st.segs).index)
    ensures ReadyState(st, cfg)
    ensures HasRoom(Last(AppendLog(st, cfg, record).st.segs).index) <==> LeavesRoom(Last(st.segs), cfg, record)
    ensures cfg.maxIndexBytes % 12 == 0 ==> LeavesRoom(Last(st.segs), cfg, record)
  {
    SoundIsReady(st.segs, cfg);
    LastOk(st.segs, cfg);
    LastAfterAppend(st, cfg, record, Last(AppendLog(st, cfg, record).st.segs));
    SizesAfterAppend(Last(st.segs), cfg, record);
  }

  // ---- Truncating ----

  /** Remove the segments above the offset, and their files. */
  function TruncateLog(st: LogState, off: nat): (st': LogState)
    ensures st.segs != [] && st.segs[0].base <= off ==> st'.segs != [] && st'.segs <= st.segs
    ensures st'.dir.Keys <= st.dir.Keys && forall b :: b in st'.dir ==> st'.dir[b] == st.dir[b]
    decreases |st.segs|
  {
    if st.segs != [] && off < Last(st.segs).base then
      TruncateLog(Popped(st), off)
    else
      st
  }

  predicate Rising(segs: seq<Seg>) {
    forall i, j :: 0 <= i < j < |segs| ==> segs[i].base < segs[j].base
  }

  predicate Orderly(st: LogState, cfg: Config) {
    Rising(st.segs) && Tidy(st) && DirectoryFits(st.dir, cfg)
  }

  lemma PopKeepsTidy(st: LogState, cfg: Config, popped: LogState)
    requires st.segs != [] && Orderly(st, cfg) && popped == Popped(st)
    ensures Orderly(popped, cfg)
  {
    BaseSetGrows(popped.segs, Last(st.segs));
    assert st.segs == popped.segs + [Last(st.segs)];
    assert Last(st.segs).base !in BaseSet(popped.segs);
  }

  /** A truncation that has removed the last `pops` segments and their files. */
  function PopLog(st: LogState, pops: nat): (st': LogState)
    requires pops <= |st.segs|
    ensures |st'.segs| == |st.segs| - pops && st'.segs <= st.segs
    decreases pops
  {
    if pops == 0 then st else PopLog(Popped(st), pops - 1)
  }

  /** One segment and its files less. */
  function Popped(st: LogState): LogState
    requires st.segs != []
  {
    LogState(st.segs[..|st.segs| - 1], st.dir - {Last(st.segs).base})
  }

  lemma {:induction false} PopsKeepFits(st: LogState, cfg: Config, pops: nat)
    requires DirectoryFits(st.dir, cfg) && pops <= |st.segs|
    ensures DirectoryFits(PopLog(st, pops).dir, cfg)
    decreases pops
  {
    if pops > 0 {
      PopsKeepFits(Popped(st), cfg, pops - 1);
    }
  }

  lemma {:induction false} PopsKeepTidy(st: LogState, cfg: Config, pops: nat, st': LogState)
    requires Orderly(st, cfg) && pops <= |st.segs| && st' == PopLog(st, pops)
    ensures Orderly(st', cfg)
    decreases pops
  {
    if pops > 0 {
      var popped := Popped(st);
      PopKeepsTidy(st, cfg, popped);
      PopsKeepTidy(popped, cfg, pops - 1, st');
    }
  }

  lemma {:induction false} TruncateKeepsTidy(st: LogState, cfg: Config, off: nat)
    requires Orderly(st, cfg)
    ensures Orderly(TruncateLog(st, off), cfg)
    decreases |st.segs|
  {
    if st.segs != [] && off < Last(st.segs).base {
      var popped := Popped(st);
      PopKeepsTidy(st, cfg, popped);
      TruncateKeepsTidy(popped, cfg, off);
    }
  }

  lemma {:induction false} TruncateIsPrefix(st: LogState, off: nat) returns (k: nat)
    requires Rising(st.segs)
    ensures k <= |st.segs| && TruncateLog(st, off).segs == st.segs[..k]
    ensures forall i :: 0 <= i < k ==> st.segs[i].base <= off
    ensures forall i :: k <= i < |st.segs| ==> st.segs[i].base > off
    decreases |st.segs|
  {
    var segs := st.segs;
    if segs != [] && off < Last(segs).base {
      var front := segs[..|segs| - 1];
      k := TruncateIsPrefix(Popped(st), off);
      assert front[..k] == segs[..k];
      assert forall i :: k <= i < |segs| - 1 ==> front[i] == segs[i];
    } else {
      k := |segs|;
      assert segs[..k] == segs;
    }
  }

  lemma SegmentBasesRise(segs: seq<Seg>, cfg: Config)
    requires LogOk(segs, cfg)
    ensures Rising(segs)
  {
    BasesRise(Chunks(segs, cfg));
    forall i, j | 0 <= i < j < |segs|
      ensures segs[i].base < segs[j].base
    {
      ChunkAt(segs, cfg, i);
      ChunkAt(segs, cfg, j);
    }
  }

  /** The records of a prefix of the segments whose successor lies above the offset. */
  lemma PrefixRecords(segs: seq<Seg>, cfg: Config, k: nat, off: nat)
    requires LogOk(segs, cfg) && 0 < k <= |segs| && segs[0].base <= off && (k < |segs| ==> segs[k].base > off)
    ensures LogOk(segs[..k], cfg) && AllRecords(segs[..k], cfg) <= AllRecords(segs, cfg)
    ensures |AllRecords(segs[..k], cfg)| >= Min(|AllRecords(segs, cfg)|, off + 1 - segs[0].base)
  {
    PrefixOk(segs, cfg, k);
    var cs := Chunks(segs, cfg);
    ChunkAt(segs, cfg, 0);
    if k < |segs| {
      ChunkAt(segs, cfg, k);
      FlatPrefix(cs, k);
    } else {
      assert cs[..k] == cs;
    }
  }

  /** A truncation stopped on its way has removed only segments above the offset, and kept everything below. */
  lemma PopRefines(st: LogState, cfg: Config, off: nat, pops: nat, mid: LogState)
    requires StateOk(st, cfg) && st.segs[0].base <= off && pops < |st.segs| && mid == PopLog(st, pops)
    requires pops > 0 ==> st.segs[|st.segs| - pops].base > off
    ensures StateOk(mid, cfg) && mid.segs[0] == st.segs[0]
    ensures AllRecords(mid.segs, cfg) <= AllRecords(st.segs, cfg)
    ensures |AllRecords(mid.segs, cfg)| >= Min(|AllRecords(st.segs, cfg)|, off + 1 - st.segs[0].base)
  {
    var k := |st.segs| - pops;
    assert mid.segs == st.segs[..k];
    SegmentBasesRise(st.segs, cfg);
    PopsKeepTidy(st, cfg, pops, mid);
    PrefixRecords(st.segs, cfg, k, off);
  }

  /**
   * Truncation removes exactly the segments whose base lies above the offset, and their files. At or above the first
   * base it leaves a non-empty log whose records are a prefix with every record at or below the offset.
   */
  lemma TruncateRefines(st: LogState, cfg: Config, off: nat) returns (k: nat)
    requires StateOk(st, cfg)
    ensures k <= |st.segs| && TruncateLog(st, off).segs == st.segs[..k] && Tidy(TruncateLog(st, off))
    ensures forall i :: 0 <= i < k ==> st.segs[i].base <= off
    ensures forall i :: k <= i < |st.segs| ==> st.segs[i].base > off
    ensures st.segs[0].base <= off ==>
              && k > 0 && StateOk(TruncateLog(st, off), cfg)
              && AllRecords(st.segs[..k], cfg) <= AllRecords(st.segs, cfg)
              && |AllRecords(st.segs[..k], cfg)| >= Min(|AllRecords(st.segs, cfg)|, off + 1 - st.segs[0].base)
  {
    var segs := st.segs;
    SegmentBasesRise(segs, cfg);
    TruncateKeepsTidy(st, cfg, off);
    k := TruncateIsPrefix(st, off);
    if st.segs[0].base <= off {
      PrefixRecords(segs, cfg, k, off);
    }
  }

  /** Only the last segment of a sound log can be without slots. */
  lemma OthersHaveSlots(segs: seq<Seg>, cfg: Config, i: nat)
    requires LogOk(segs, cfg) && i < |segs| - 1
    ensures segs[i].index.size > 0
  {
    assert SegOk(segs[i], cfg);
    assert Continues(Chunks(segs, cfg)[i], Chunks(segs, cfg)[i + 1]);
  }

  lemma SameChunks(segs: seq<Seg>, segs': seq<Seg>, cfg: Config)
    requires LogOk(segs, cfg) && |segs'| == |segs|
    requires forall i :: 0 <= i < |segs| ==> SegOk(segs'[i], cfg) && ChunkOf(segs'[i], cfg) == Chunks(segs, cfg)[i]
    ensures LogOk(segs', cfg) && segs'[0].base == segs[0].base && AllRecords(segs', cfg) == AllRecords(segs, cfg)
  {
    assert Chunks(segs', cfg) == Chunks(segs, cfg);
  }
}
