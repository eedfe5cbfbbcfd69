/** The log of `src/log.rs` as an object that owns its segments and their directory. */
module DiskLog {
  import opened RaftTypes
  import opened LogStore
  import opened LogIndex
  import opened LogSegment
  import opened SegmentedLog
  import opened LogDirectory

  /** The base offsets found in a directory, in ascending order. */
  method ListBases(dir: Directory) returns (offsets: seq<nat>)
    ensures offsets == Listing(dir)
  {
    offsets := [];
    var rest := dir.Keys;
    while rest != {}
      invariant rest <= dir.Keys
      invariant Ascending(offsets)
      invariant forall b :: b in offsets <==> b in dir && b !in rest
      decreases rest
    {
      var b :| b in rest;
      offsets := Inserted(offsets, b);
      rest := rest - {b};
    }
    AscendingUnique(offsets, Listing(dir));
  }

  method OpenSegments(cfg: Config, dir: Directory, offsets: seq<nat>) returns (segs: seq<Seg>)
    requires DirectoryFits(dir, cfg) && forall i :: 0 <= i < |offsets| ==> offsets[i] in dir
    ensures |segs| == |offsets|
    ensures forall k :: 0 <= k < |segs| ==> segs[k] == OpenSeg(dir[offsets[k]], offsets[k], cfg)
  {
    segs := [];
    for i := 0 to |offsets|
      invariant |segs| == i
      invariant forall k :: 0 <= k < i ==> segs[k] == OpenSeg(dir[offsets[k]], offsets[k], cfg)
    {
      segs := segs + [OpenSeg(dir[offsets[i]], offsets[i], cfg)];
    }
  }

  /** A Rust `Vec<Segment>` owns its segments, so they are held as values here. */
  class Log {
    const cfg: Config
    var dir: Directory
    var activeIndex: nat
    var segments: seq<Seg>

    /** What every operation relies on and keeps, except a truncation below the first base. */
    predicate Valid()
      reads this
    {
      ReadyState(Value(), cfg) && activeIndex == |segments| - 1
    }

    function Value(): LogState
      reads this
    {
      LogState(segments, dir)
    }

    constructor (cfg: Config, dir: Directory)
      requires DirectoryFits(dir, cfg)
      ensures Valid() && this.cfg == cfg && Value() == OpenLog(dir, cfg)
    {
      var offsets := ListBases(dir);
      assert forall i :: 0 <= i < |offsets| ==> offsets[i] in offsets;
      var segs := OpenSegments(cfg, dir, offsets);
      var files := dir;
      if segs == [] {
        segs := segs + [OpenSeg(FilesAt(dir, cfg.initialOffset), cfg.initialOffset, cfg)];
        files := files[cfg.initialOffset := FilesAt(dir, cfg.initialOffset)];
      }
      this.cfg, this.dir := cfg, files;
      segments, activeIndex := segs, |segs| - 1;
    }

    /**
     * Rotation opens whatever files the directory has under the new base offset, and creates them if there are none.
     * If it fails, the append is answered with an error although the record is in the log.
     */
    method Append(record: Record, rotateFails: bool) returns (off: Option<nat>)
      requires Valid()
      modifies this
      ensures Valid()
      ensures Appended(Value(), off) == if rotateFails then AppendUnrotated(old(Value()), cfg, record)
                                        else AppendLog(old(Value()), cfg, record)
    {
      var s := segments[activeIndex];
      segments := segments[activeIndex := AppendSeg(s, record)];
      assert segments == WithLast(old(segments), AppendSeg(s, record));
      if !HasRoom(s.index) {
        return None;
      }
      off := Some(s.next);
      if IsMaxed(segments[activeIndex], cfg) {
        if rotateFails {
          return None;
        }
        var files := FilesAt(dir, s.next + 1);
        segments := segments + [OpenSeg(files, s.next + 1, cfg)];
        dir := dir[s.next + 1 := files];
        activeIndex := activeIndex + 1;
      }
    }

    method Read(off: nat) returns (r: Option<Record>)
      requires Valid()
      ensures r == ReadLog(segments, cfg, off)
    {
      var cur := 0;
      while cur < |segments| && !InRange(segments[cur], off)
        invariant cur <= |segments|
        invariant Find(segments, off, 0) == Find(segments, off, cur)
      {
        cur := cur + 1;
      }
      if cur >= |segments| {
        return None;
      }
      r := ReadSeg(segments[cur], off);
    }

    /** For any offset; below the first base it removes every segment. Every popped segment takes its files with it. */
    method Truncate(off: nat)
      requires Valid()
      modifies this
      ensures Value() == TruncateLog(old(Value()), off)
      ensures segments != [] ==> Valid()
    {
      while segments != [] && off < segments[|segments| - 1].base
        invariant TruncateLog(Value(), off) == TruncateLog(old(Value()), off)
        invariant segments != [] ==> Valid()
        decreases |segments|
      {
        var base := segments[|segments| - 1].base;
        segments := segments[..|segments| - 1];
        dir := dir - {base};
        activeIndex := if activeIndex == 0 then 0 else activeIndex - 1;
      }
    }

    /** The files that a clean close leaves behind, by segment. */
    method Close() returns (files: seq<Files>)
      requires Valid()
      ensures files == ClosedAll(segments, cfg)
    {
      files := [];
      for i := 0 to activeIndex + 1
        invariant |files| == i
        invariant forall k :: 0 <= k < i ==> files[k] == ClosedFiles(segments[k])
      {
        files := files + [ClosedFiles(segments[i])];
      }
    }

    method NextOffset() returns (off: nat)
      requires Valid()
      ensures off == Last(segments).next
    {
      off := segments[activeIndex].next;
    }
  }
}
