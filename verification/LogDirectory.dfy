/** Closing, stopping and reopening the log: listing the directory and opening a segment for every base offset in it. */
module LogDirectory {
  import opened Bytes
  import opened RaftTypes
  import opened LogStore
  import opened LogIndex
  import opened LogSegment
  import opened SegmentedLog

  predicate Ascending(s: seq<nat>) {
    forall i, j :: 0 <= i < j < |s| ==> s[i] < s[j]
  }

  ghost predicate Lists(offsets: seq<nat>, dir: Directory) {
    Ascending(offsets) && forall b :: b in offsets <==> b in dir
  }

  lemma AscendingLast(a: seq<nat>)
    requires Ascending(a) && a != []
    ensures Ascending(a[..|a| - 1]) && a[|a| - 1] in a
    ensures forall x :: x in a[..|a| - 1] <==> x in a && x < a[|a| - 1]
    ensures forall x :: x in a ==> x <= a[|a| - 1]
  {
    assert a == a[..|a| - 1] + [a[|a| - 1]];
  }

  lemma {:induction false} AscendingUnique(a: seq<nat>, b: seq<nat>)
    requires Ascending(a) && Ascending(b)
    requires forall x :: x in a <==> x in b
    ensures a == b
  {
    assert b != [] ==> b[0] in a;
    assert a != [] ==> a[0] in b;
    if a != [] {
      var n, m := |a| - 1, |b| - 1;
      AscendingLast(a);
      AscendingLast(b);
      assert a[n] == b[m];
      forall x
        ensures x in a[..n] <==> x in b[..m]
      {
        assert x in a <==> x in b;
      }
      AscendingUnique(a[..n], b[..m]);
      assert a == a[..n] + [a[n]] && b == b[..m] + [b[m]];
    }
  }

  function Inserted(s: seq<nat>, x: nat): (r: seq<nat>)
    requires Ascending(s) && x !in s
    ensures Ascending(r)
    ensures forall y :: y in r <==> y == x || y in s
  {
    if s == [] then [x]
    else if x > s[|s| - 1] then s + [x]
    else
      var front := s[..|s| - 1];
      assert s == front + [s[|s| - 1]];
      var r := Inserted(front, x);
      assert forall i :: 0 <= i < |r| ==> r[i] in r;
      r + [s[|s| - 1]]
  }

  /** The base offsets found in a directory, in ascending order. */
  ghost function Listing(dir: Directory): (offsets: seq<nat>)
    ensures Lists(offsets, dir)
    decreases |dir.Keys|
  {
    if dir.Keys == {} then []
    else
      var b :| b in dir.Keys;
      assert (dir - {b}).Keys == dir.Keys - {b};
      Inserted(Listing(dir - {b}), b)
  }

  /** `Log::new`: one segment per base offset in ascending order, or a first one if there is none. */
  ghost function OpenLog(dir: Directory, cfg: Config): (st: LogState)
    requires DirectoryFits(dir, cfg)
    ensures ReadyState(st, cfg)
  {
    var offsets := Listing(dir);
    if offsets == [] then Rotate(LogState([], dir), cfg, cfg.initialOffset)
    else LogState(seq(|offsets|, i requires 0 <= i < |offsets| =>
                        assert offsets[i] in dir; OpenSeg(dir[offsets[i]], offsets[i], cfg)), dir)
  }

  function Bases(segs: seq<Seg>): seq<nat> {
    seq(|segs|, i requires 0 <= i < |segs| => segs[i].base)
  }

  /** The directory with files[i] under the name bases[i]. */
  function PutAll(dir: Directory, bases: seq<nat>, files: seq<Files>): Directory
    requires |files| == |bases|
  {
    if bases == [] then dir
    else
      var n := |bases| - 1;
      PutAll(dir, bases[..n], files[..n])[bases[n] := files[n]]
  }

  lemma {:induction false} PutAllKeys(dir: Directory, bases: seq<nat>, files: seq<Files>)
    requires |files| == |bases| && forall i :: 0 <= i < |bases| ==> bases[i] in dir
    ensures PutAll(dir, bases, files).Keys == dir.Keys
  {
    if bases != [] {
      var n := |bases| - 1;
      PutAllKeys(dir, bases[..n], files[..n]);
      assert bases[n] in dir;
    }
  }

  lemma {:induction false} PutAllFiles(dir: Directory, bases: seq<nat>, files: seq<Files>, i: nat)
    requires |files| == |bases| && Ascending(bases) && i < |bases|
    ensures bases[i] in PutAll(dir, bases, files) && PutAll(dir, bases, files)[bases[i]] == files[i]
  {
    var n := |bases| - 1;
    if i < n {
      PutAllFiles(dir, bases[..n], files[..n], i);
    }
  }

  ghost predicate FilesFit(files: seq<Files>, cfg: Config) {
    forall i :: 0 <= i < |files| ==> |files[i].index| <= cfg.maxIndexBytes
  }

  lemma {:induction false} PutAllFits(dir: Directory, bases: seq<nat>, files: seq<Files>, cfg: Config)
    requires |files| == |bases| && DirectoryFits(dir, cfg) && FilesFit(files, cfg)
    ensures DirectoryFits(PutAll(dir, bases, files), cfg)
  {
    if bases != [] {
      var n := |bases| - 1;
      PutAllFits(dir, bases[..n], files[..n], cfg);
    }
  }

  /** The log opened from the directory in which files[i] is what became of segment i. */
  ghost function Reopen(st: LogState, cfg: Config, files: seq<Files>): (st': LogState)
    requires ReadyState(st, cfg) && |files| == |st.segs| && FilesFit(files, cfg)
    ensures ReadyState(st', cfg)
  {
    PutAllFits(st.dir, Bases(st.segs), files, cfg);
    OpenLog(PutAll(st.dir, Bases(st.segs), files), cfg)
  }

  lemma BasesMembers(segs: seq<Seg>)
    ensures forall b :: b in Bases(segs) <==> b in BaseSet(segs)
  {
    forall b
      ensures b in Bases(segs) <==> b in BaseSet(segs)
    {
      if b in BaseSet(segs) {
        var i :| 0 <= i < |segs| && segs[i].base == b;
        assert Bases(segs)[i] == b;
      }
    }
  }

  /** Opening a directory that has exactly these files under ascending names opens each of them. */
  lemma OpenLogOpensEach(dir: Directory, cfg: Config, bases: seq<nat>, files: seq<Files>)
    requires DirectoryFits(dir, cfg) && Ascending(bases) && bases != [] && |files| == |bases|
    requires (forall b :: b in bases <==> b in dir) && forall i :: 0 <= i < |bases| ==> dir[bases[i]] == files[i]
    ensures FilesFit(files, cfg)
    ensures OpenLog(dir, cfg).dir == dir
    ensures OpenLog(dir, cfg).segs == seq(|bases|, i requires 0 <= i < |bases| => OpenSeg(files[i], bases[i], cfg))
  {
    AscendingUnique(Listing(dir), bases);
    assert forall i :: 0 <= i < |bases| ==> bases[i] in dir;
  }

  lemma SameBases(segs: seq<Seg>, segs': seq<Seg>)
    requires |segs'| == |segs| && forall i :: 0 <= i < |segs| ==> segs'[i].base == segs[i].base
    ensures BaseSet(segs') == BaseSet(segs)
  {
    assert Bases(segs') == Bases(segs);
    BasesMembers(segs);
    BasesMembers(segs');
  }

  lemma PutAllIsExact(dir: Directory, bases: seq<nat>, files: seq<Files>, cfg: Config, dir': Directory)
    requires Ascending(bases) && |files| == |bases| && DirectoryFits(dir, cfg) && FilesFit(files, cfg)
    requires (forall b :: b in bases <==> b in dir) && dir' == PutAll(dir, bases, files)
    ensures DirectoryFits(dir', cfg) && dir'.Keys == dir.Keys
    ensures forall i :: 0 <= i < |bases| ==> bases[i] in dir' && dir'[bases[i]] == files[i]
  {
    assert forall i :: 0 <= i < |bases| ==> bases[i] in bases;
    PutAllKeys(dir, bases, files);
    PutAllFits(dir, bases, files, cfg);
    forall i | 0 <= i < |files|
      ensures bases[i] in dir' && dir'[bases[i]] == files[i]
    {
      PutAllFiles(dir, bases, files, i);
    }
  }

  /** What opening finds when the directory lists exactly the segments: each of them, from its own files. */
  lemma RisingReopensEach(st: LogState, cfg: Config, files: seq<Files>)
    requires Rising(st.segs) && Tidy(st) && ReadyState(st, cfg) && |files| == |st.segs| && FilesFit(files, cfg)
    ensures var st' := Reopen(st, cfg, files);
            && st'.segs == seq(|files|, i requires 0 <= i < |files| => OpenSeg(files[i], st.segs[i].base, cfg))
            && st'.dir.Keys == st.dir.Keys
  {
    var bases := Bases(st.segs);
    var dir := PutAll(st.dir, bases, files);
    BasesMembers(st.segs);
    PutAllIsExact(st.dir, bases, files, cfg, dir);
    OpenLogOpensEach(dir, cfg, bases, files);
  }

  lemma ReopenOpensEach(st: LogState, cfg: Config, files: seq<Files>)
    requires LogOk(st.segs, cfg) && Tidy(st) && ReadyState(st, cfg) && |files| == |st.segs| && FilesFit(files, cfg)
    ensures var st' := Reopen(st, cfg, files);
            && st'.segs == seq(|files|, i requires 0 <= i < |files| => OpenSeg(files[i], st.segs[i].base, cfg))
            && Tidy(st')
  {
    SegmentBasesRise(st.segs, cfg);
    RisingReopensEach(st, cfg, files);
    SameBases(st.segs, Reopen(st, cfg, files).segs);
  }

  /** The files of a segment open to a sound segment. */
  ghost predicate Recovers(s: Seg, cfg: Config, files: Files) {
    |files.index| <= cfg.maxIndexBytes && SegOk(OpenSeg(files, s.base, cfg), cfg)
  }

  ghost predicate AllRecover(segs: seq<Seg>, cfg: Config, files: seq<Files>) {
    && |files| == |segs|
    && forall i {:trigger Recovers(segs[i], cfg, files[i])} :: 0 <= i < |segs| ==> Recovers(segs[i], cfg, files[i])
  }

  /** A sound segment that opens from these files has the records it had before. */
  ghost predicate Faithful(s: Seg, cfg: Config, files: Files) {
    SegOk(s, cfg) && (Recovers(s, cfg, files) ==> Records(OpenSeg(files, s.base, cfg), cfg) == Records(s, cfg))
  }

  lemma ReopenKeepsIff(st: LogState, cfg: Config, files: seq<Files>)
    requires StateOk(st, cfg) && ReadyState(st, cfg) && |files| == |st.segs| && FilesFit(files, cfg)
    requires forall i {:trigger Faithful(st.segs[i], cfg, files[i])} ::
               0 <= i < |files| ==> Faithful(st.segs[i], cfg, files[i])
    ensures var st' := Reopen(st, cfg, files);
            && (StateOk(st', cfg) <==> AllRecover(st.segs, cfg, files))
            && (StateOk(st', cfg) ==>
                  st'.segs[0].base == st.segs[0].base && AllRecords(st'.segs, cfg) == AllRecords(st.segs, cfg))
  {
    var segs, st' := st.segs, Reopen(st, cfg, files);
    ReopenOpensEach(st, cfg, files);
    if AllRecover(segs, cfg, files) {
      forall i | 0 <= i < |segs|
        ensures SegOk(st'.segs[i], cfg) && ChunkOf(st'.segs[i], cfg) == Chunks(segs, cfg)[i]
      {
        assert Recovers(segs[i], cfg, files[i]) && Faithful(segs[i], cfg, files[i]);
      }
      SameChunks(segs, st'.segs, cfg);
    }
    if StateOk(st', cfg) {
      forall i | 0 <= i < |segs|
        ensures Recovers(segs[i], cfg, files[i])
      {
        assert SegOk(st'.segs[i], cfg);
      }
    }
  }

  // ---- Clean closes ----

  function ClosedAll(segs: seq<Seg>, cfg: Config): seq<Files>
    requires Ready(segs, cfg)
  {
    seq(|segs|, i requires 0 <= i < |segs| => ClosedFiles(segs[i]))
  }

  /** A clean close and reopen changes no record. */
  lemma CloseRefines(st: LogState, cfg: Config)
    requires StateOk(st, cfg)
    ensures ReadyState(st, cfg) && FilesFit(ClosedAll(st.segs, cfg), cfg)
    ensures var st' := Reopen(st, cfg, ClosedAll(st.segs, cfg));
            && StateOk(st', cfg) && st'.segs[0].base == st.segs[0].base
            && AllRecords(st'.segs, cfg) == AllRecords(st.segs, cfg)
  {
    SoundIsReady(st.segs, cfg);
    var files := ClosedAll(st.segs, cfg);
    forall i | 0 <= i < |files|
      ensures Recovers(st.segs[i], cfg, files[i]) && Faithful(st.segs[i], cfg, files[i])
    {
      assert SegOk(st.segs[i], cfg);
      CloseSegReopens(st.segs[i], cfg);
    }
    ReopenKeepsIff(st, cfg, files);
  }

  /** The last segment after reopening comes from the files of the last segment before. */
  lemma LastReopens(st: LogState, cfg: Config, files: seq<Files>, file: Files, last: Seg)
    requires StateOk(st, cfg) && ReadyState(st, cfg) && |files| == |st.segs| && FilesFit(files, cfg)
    requires file == files[|files| - 1] && last == Last(Reopen(st, cfg, files).segs)
    ensures |file.index| <= cfg.maxIndexBytes && last == OpenSeg(file, Last(st.segs).base, cfg)
  {
    ReopenOpensEach(st, cfg, files);
  }

  lemma CloseKeepsLastSizes(st: LogState, cfg: Config, last: Seg)
    requires StateOk(st, cfg) && ReadyState(st, cfg) && FilesFit(ClosedAll(st.segs, cfg), cfg)
    requires last == Last(Reopen(st, cfg, ClosedAll(st.segs, cfg)).segs)
    ensures last.index.size == Last(st.segs).index.size && |last.index.mmap| == |Last(st.segs).index.mmap|
    ensures last.store == Last(st.segs).store
  {
    LastOk(st.segs, cfg);
    LastReopens(st, cfg, ClosedAll(st.segs, cfg), ClosedFiles(Last(st.segs)), last);
    CloseSegReopens(Last(st.segs), cfg);
  }
}
