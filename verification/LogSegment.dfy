/** One segment of the log (`src/log/segment.rs`): an index whose slots point at records in a store. */
module LogSegment {
  import opened Bytes
  import opened RaftTypes
  import opened LogStore
  import opened LogIndex

  datatype Config = Config(initialOffset: nat, syncWrites: bool, maxIndexBytes: nat, maxStoreBytes: nat)

  /** The two files of a segment. */
  datatype Files = Files(store: seq<Byte>, index: seq<Byte>)

  /** A segment as a value: what its store holds, buffered or not, and what its index maps. */
  datatype Seg = Seg(base: nat, next: nat, store: seq<Byte>, index: Table)

  const NO_FILES := Files([], [])

  function OpenSeg(files: Files, base: nat, cfg: Config): Seg
    requires |files.index| <= cfg.maxIndexBytes
  {
    var index := Opened(files.index, cfg.maxIndexBytes);
    Seg(base, base + Count(index), files.store, index)
  }

  /** Store first, then index: a refused slot leaves bytes in the store that nothing points at. */
  function AppendSeg(s: Seg, record: Record): Seg
    requires s.base <= s.next
  {
    s.(store := s.store + Framed(record),
       index := Written(s.index, s.next - s.base, |s.store|),
       next := if HasRoom(s.index) then s.next + 1 else s.next)
  }

  /** The record that slot k points at. */
  function ReadSlot(s: Seg, k: nat): Option<Record>
    requires s.index.size <= |s.index.mmap|
  {
    if 12 * k + 12 > s.index.size then None else ReadRecord(s.store, SlotPosition(s.index.mmap, k))
  }

  function ReadSeg(s: Seg, off: nat): Option<Record>
    requires s.index.size <= |s.index.mmap|
  {
    if off < s.base || off >= s.next then None else ReadSlot(s, off - s.base)
  }

  predicate IsMaxed(s: Seg, cfg: Config) {
    s.index.size >= cfg.maxIndexBytes || |s.store| >= cfg.maxStoreBytes
  }

  predicate InRange(s: Seg, off: nat) {
    s.base <= off < s.next
  }

  function ClosedFiles(s: Seg): Files
    requires s.index.size <= |s.index.mmap|
  {
    Files(s.store, Closed(s.index))
  }

  /** The files after an abrupt stop: the whole mapped index, and what had left the buffered writer of the store. */
  function StoppedFiles(s: Seg, disk: seq<Byte>): Files {
    Files(disk, s.index.mmap)
  }

  predicate SegOk(s: Seg, cfg: Config) {
    && Sound(s.index) && |s.index.mmap| == cfg.maxIndexBytes
    && s.next == s.base + Count(s.index)
    && forall k :: 0 <= k < Count(s.index) ==> ReadSlot(s, k) != None
  }

  function Records(s: Seg, cfg: Config): (r: seq<Record>)
    requires SegOk(s, cfg)
    ensures |r| == s.next - s.base
  {
    seq(Count(s.index), k requires 0 <= k < Count(s.index) => ReadSlot(s, k).value)
  }

  predicate Fits(s: Seg, record: Record) {
    |s.store| + 8 + |record| < U64_LIMIT
  }

  lemma NewSegOk(base: nat, cfg: Config)
    requires cfg.maxIndexBytes <= MAX_INDEX_BYTES
    ensures SegOk(OpenSeg(NO_FILES, base, cfg), cfg)
    ensures Records(OpenSeg(NO_FILES, base, cfg), cfg) == []
  {
  }

  /** Same slots over a store with the same beginning: the same records. */
  lemma SameRecords(s: Seg, s': Seg, cfg: Config, more: seq<Byte>)
    requires SegOk(s, cfg) && Sound(s'.index) && SameSlots(s.index, s'.index)
    requires s'.base == s.base && s'.next == s.next && s'.store == s.store + more
    ensures SegOk(s', cfg) && Records(s', cfg) == Records(s, cfg)
  {
    SameSlotsReadAlike(s.index, s'.index);
    forall k | 0 <= k < Count(s.index)
      ensures ReadSlot(s', k) == ReadSlot(s, k)
    {
      assert ReadSlot(s, k) != None;
      ReadIgnoresLaterBytes(s.store, more, SlotPosition(s.index.mmap, k));
    }
  }

  lemma OldSlotReads(s: Seg, record: Record, cfg: Config, k: nat)
    requires SegOk(s, cfg) && Fits(s, record) && k < Count(s.index)
    ensures AppendSeg(s, record).index.size <= |AppendSeg(s, record).index.mmap|
    ensures ReadSlot(AppendSeg(s, record), k) == ReadSlot(s, k)
  {
    WriteKeepsSound(s.index, |s.store|);
    assert ReadSlot(s, k) != None;
    ReadIgnoresLaterBytes(s.store, Framed(record), SlotPosition(s.index.mmap, k));
  }

  lemma NewSlotReads(s: Seg, record: Record, cfg: Config)
    requires SegOk(s, cfg) && Fits(s, record) && HasRoom(s.index)
    ensures AppendSeg(s, record).index.size <= |AppendSeg(s, record).index.mmap|
    ensures ReadSlot(AppendSeg(s, record), Count(s.index)) == Some(record)
  {
    WriteKeepsSound(s.index, |s.store|);
    FramedRecordReadsBack(s.store, record, []);
    assert s.store + Framed(record) + [] == s.store + Framed(record);
  }

  /** With one more sound slot and every slot readable, the records are those of the slots. */
  lemma RecordsExtend(s: Seg, cfg: Config, record: Record, s': Seg)
    requires SegOk(s, cfg) && Sound(s'.index) && |s'.index.mmap| == cfg.maxIndexBytes
    requires s'.base == s.base && s'.next == s.next + 1 && Count(s'.index) == Count(s.index) + 1
    requires forall k :: 0 <= k < Count(s.index) ==> ReadSlot(s', k) == ReadSlot(s, k)
    requires ReadSlot(s', Count(s.index)) == Some(record)
    ensures SegOk(s', cfg) && Records(s', cfg) == Records(s, cfg) + [record]
  {
    forall k | 0 <= k < Count(s'.index)
      ensures ReadSlot(s', k) != None
    {
      if k < Count(s.index) {
        assert ReadSlot(s, k) != None;
      }
    }
  }

  lemma RoomyAppendRefines(s: Seg, record: Record, cfg: Config, s': Seg)
    requires SegOk(s, cfg) && Fits(s, record) && HasRoom(s.index) && s' == AppendSeg(s, record)
    requires Sound(s'.index) && |s'.index.mmap| == |s.index.mmap| && Count(s'.index) == Count(s.index) + 1
    ensures SegOk(s', cfg) && Records(s', cfg) == Records(s, cfg) + [record]
  {
    forall k | 0 <= k < Count(s.index)
      ensures ReadSlot(s', k) == ReadSlot(s, k)
    {
      OldSlotReads(s, record, cfg, k);
    }
    NewSlotReads(s, record, cfg);
    RecordsExtend(s, cfg, record, s');
  }

  /** An append adds the record if a slot is free and otherwise changes no record, though its bytes are in the store. */
  lemma AppendSegRefines(s: Seg, record: Record, cfg: Config)
    requires SegOk(s, cfg) && Fits(s, record)
    ensures var s' := AppendSeg(s, record);
            && SegOk(s', cfg) && s'.base == s.base && s'.store == s.store + Framed(record)
            && Records(s', cfg) == Records(s, cfg) + (if HasRoom(s.index) then [record] else [])
  {
    var s' := AppendSeg(s, record);
    WriteKeepsSound(s.index, |s.store|);
    if HasRoom(s.index) {
      RoomyAppendRefines(s, record, cfg, s');
    } else {
      SameRecords(s, s', cfg, Framed(record));
    }
  }

  lemma CloseSegReopens(s: Seg, cfg: Config)
    requires SegOk(s, cfg)
    ensures var s' := OpenSeg(ClosedFiles(s), s.base, cfg);
            && s'.next == s.next && s'.store == s.store && s'.index.size == s.index.size
            && SegOk(s', cfg) && Records(s', cfg) == Records(s, cfg)
  {
    CloseReopens(s.index);
    assert s.store + [] == s.store;
    SameRecords(s, OpenSeg(ClosedFiles(s), s.base, cfg), cfg, []);
  }

  // ---- Abrupt stops ----

  /**
   * What a stop can leave of a store, with `pending` just handed to it: with synchronous writes all but the pending
   * part.
   */
  predicate Leaves(s: Seg, cfg: Config, pending: seq<Byte>, disk: seq<Byte>) {
    disk <= s.store + pending && (cfg.syncWrites ==> s.store <= disk)
  }

  /** Where the record of slot k ends in the store. */
  function SlotEnd(s: Seg, cfg: Config, k: nat): nat
    requires SegOk(s, cfg) && k < Count(s.index)
  {
    SlotPosition(s.index.mmap, k) + 8 + |ReadSlot(s, k).value|
  }

  /** Every record that a slot points at has left the buffered writer. */
  predicate Flushed(s: Seg, cfg: Config, disk: seq<Byte>)
    requires SegOk(s, cfg)
  {
    forall k :: 0 <= k < Count(s.index) ==> SlotEnd(s, cfg, k) <= |disk|
  }

  lemma StoppedSlotReads(s: Seg, cfg: Config, pending: seq<Byte>, disk: seq<Byte>, k: nat)
    requires SegOk(s, cfg) && disk <= s.store + pending && k < Count(s.index)
    ensures ReadSlot(s.(store := disk), k) == if SlotEnd(s, cfg, k) <= |disk| then ReadSlot(s, k) else None
  {
    var pos := SlotPosition(s.index.mmap, k);
    assert ReadSlot(s, k) != None;
    ReadIgnoresLaterBytes(s.store, pending, pos);
    ReadFromPrefix(disk, s.store + pending, pos);
  }

  /**
   * After an abrupt stop a segment is sound, with the same records, exactly if every record had been flushed.
   * An unflushed record cannot be read; bytes that no slot points at do no harm.
   */
  lemma StopSegReopensIff(s: Seg, cfg: Config, pending: seq<Byte>, disk: seq<Byte>)
    requires SegOk(s, cfg) && disk <= s.store + pending
    ensures var s' := OpenSeg(StoppedFiles(s, disk), s.base, cfg);
            && s' == s.(store := disk)
            && (SegOk(s', cfg) <==> Flushed(s, cfg, disk))
            && (SegOk(s', cfg) ==> Records(s', cfg) == Records(s, cfg))
  {
    StopReopens(s.index);
    forall k | 0 <= k < Count(s.index)
      ensures ReadSlot(s.(store := disk), k) == if SlotEnd(s, cfg, k) <= |disk| then ReadSlot(s, k) else None
    {
      StoppedSlotReads(s, cfg, pending, disk, k);
    }
  }

  /** With synchronous writes every record is flushed at every stop. */
  lemma SyncedIsFlushed(s: Seg, cfg: Config, pending: seq<Byte>, disk: seq<Byte>)
    requires SegOk(s, cfg) && cfg.syncWrites && Leaves(s, cfg, pending, disk)
    ensures Flushed(s, cfg, disk)
  {
    forall k | 0 <= k < Count(s.index)
      ensures SlotEnd(s, cfg, k) <= |disk|
    {
      assert ReadSlot(s, k) != None;
    }
  }

  /** The last slot points at the end of the store, where there is no record. */
  predicate Dangling(s: Seg, cfg: Config) {
    && Sound(s.index) && |s.index.mmap| == cfg.maxIndexBytes
    && s.next == s.base + Count(s.index) && Count(s.index) > 0
    && SlotPosition(s.index.mmap, Count(s.index) - 1) == |s.store|
  }

  lemma DanglingReadsNothing(s: Seg, cfg: Config)
    requires Dangling(s, cfg)
    ensures ReadSeg(s, s.next - 1) == None
  {
  }

  /** Two slots with this position over a store with a record there. */
  lemma BothRead(later: Seg, n: nat, store: seq<Byte>, record: Record)
    requires Sound(later.index) && later.next == later.base + Count(later.index) && n + 2 == Count(later.index)
    requires SlotPosition(later.index.mmap, n) == SlotPosition(later.index.mmap, n + 1) == |store|
    requires later.store == store + Framed(record) && |record| < U64_LIMIT
    ensures ReadSeg(later, later.base + n) == Some(record) && ReadSeg(later, later.base + n + 1) == Some(record)
  {
    FramedRecordReadsBack(store, record, []);
    assert store + Framed(record) + [] == store + Framed(record);
  }

  /** After the next append a dangling slot reads that append's record instead of its own. */
  lemma DanglingReadsLater(s: Seg, cfg: Config, record: Record, later: Seg)
    requires Dangling(s, cfg) && HasRoom(s.index) && Fits(s, record)
    requires s.base <= s.next && later == AppendSeg(s, record)
    ensures later.index.size <= |later.index.mmap| && later.base == s.base && later.next == s.next + 1
    ensures ReadSeg(later, s.next - 1) == Some(record) && ReadSeg(later, s.next) == Some(record)
  {
    WriteKeepsSound(s.index, |s.store|);
    BothRead(later, Count(s.index) - 1, s.store, record);
  }

  /** A stop that leaves nothing of the last appended record makes its slot dangle. */
  lemma UnflushedRecordDangles(s: Seg, cfg: Config, lost: Record)
    requires SegOk(s, cfg) && Fits(s, lost) && HasRoom(s.index)
    ensures var stopped := OpenSeg(StoppedFiles(AppendSeg(s, lost), s.store), s.base, cfg);
            Dangling(stopped, cfg) && stopped.next == s.next + 1
  {
    WriteKeepsSound(s.index, |s.store|);
    StopReopens(AppendSeg(s, lost).index);
  }

  /** An interrupted creation of the index makes a slot dangle that nobody wrote. */
  lemma InterruptedCreationDangles(base: nat, cfg: Config)
    requires 12 <= cfg.maxIndexBytes <= MAX_INDEX_BYTES
    ensures var created := OpenSeg(Files([], Repeat(0, cfg.maxIndexBytes)), base, cfg);
            Dangling(created, cfg) && created.next == base + 1
  {
    InterruptedIsOneSlot(cfg.maxIndexBytes, Repeat(0, cfg.maxIndexBytes));
  }

  class Segment {
    const cfg: Config
    const index: Index
    const store: Store
    const baseOffset: nat
    var nextOffset: nat

    function Footprint(): set<object> {
      {this, index, index.mmap, store}
    }

    predicate Valid()
      reads this, index, index.mmap, store
    {
      && index.Valid() && store.Valid() && store.syncWrites == cfg.syncWrites
      && baseOffset <= nextOffset
    }

    function Value(): Seg
      reads this, index, index.mmap, store
    {
      Seg(baseOffset, nextOffset, store.Contents(), index.Value())
    }

    /** What is on disk at this moment. */
    function OnDisk(): Files
      reads this, index, index.mmap, store
      requires Valid()
    {
      Files(store.file, index.OnDisk())
    }

    constructor (cfg: Config, base: nat, files: Files)
      requires |files.index| <= cfg.maxIndexBytes
      ensures Valid() && fresh(Footprint()) && Open()
      ensures this.cfg == cfg && Value() == OpenSeg(files, base, cfg)
    {
      this.cfg := cfg;
      store := new Store(files.store, cfg.syncWrites);
      index := new Index(files.index, cfg.maxIndexBytes);
      baseOffset, nextOffset := base, base;
      new;
      if index.size > 0 {
        var count := index.CurrentOffset();
        nextOffset := baseOffset + count;
      }
    }

    /** Not closed: the index file still has its full length. */
    predicate Open()
      reads index
    {
      index.fileLength == index.mmap.Length
    }

    /** A stop at any moment leaves the mapped index and a possible part of the store. */
    lemma StopLeaves()
      requires Valid() && Open()
      ensures OnDisk() == StoppedFiles(Value(), store.file) && Leaves(Value(), cfg, [], store.file)
      ensures cfg.syncWrites ==> OnDisk() == StoppedFiles(Value(), Value().store)
    {
      assert index.mmap[..index.fileLength] == index.mmap[..];
      assert Value().store + [] == Value().store;
      assert cfg.syncWrites ==> store.file + [] == store.file;
    }

    /** The moment between store and index write: a stop there leaves the old segment with the record pending. */
    method AppendToStore(record: Record) returns (pos: nat)
      requires Valid() && Open()
      modifies store
      ensures Valid() && Open() && pos == |old(Value()).store|
      ensures Value() == old(Value()).(store := old(Value()).store + Framed(record))
      ensures OnDisk() == StoppedFiles(old(Value()), store.file)
      ensures Leaves(old(Value()), cfg, Framed(record), store.file)
      ensures cfg.syncWrites ==> store.file == old(Value()).store + Framed(record)
    {
      pos := store.Len();
      var _ := store.Append(record);
      StopLeaves();
    }

    method Append(record: Record) returns (off: Option<nat>)
      requires Valid() && Open()
      modifies this, index, index.mmap, store
      ensures Valid() && Open()
      ensures Value() == AppendSeg(old(Value()), record)
      ensures off == if HasRoom(old(index.Value())) then Some(old(nextOffset)) else None
      ensures OnDisk() == StoppedFiles(Value(), store.file) && Leaves(Value(), cfg, [], store.file)
    {
      var cur := nextOffset;
      var pos := AppendToStore(record);
      var ok := index.Write(nextOffset - baseOffset, pos);
      if ok {
        nextOffset := nextOffset + 1;
      }
      StopLeaves();
      return if ok then Some(cur) else None;
    }

    method Read(off: nat) returns (r: Option<Record>)
      requires Valid()
      modifies store
      ensures Valid() && Value() == old(Value())
      ensures r == ReadSeg(Value(), off)
    {
      if off < baseOffset || off >= nextOffset {
        return None;
      }
      var slot := index.Read(off - baseOffset);
      if slot == None {
        return None;
      }
      r := store.Read(slot.value.1);
    }

    method Close()
      requires Valid()
      modifies index, store
      ensures Valid() && Value() == old(Value())
      ensures OnDisk() == ClosedFiles(Value())
    {
      store.Close();
      index.Close();
    }
  }
}
