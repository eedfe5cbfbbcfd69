/**
 * The index of `src/log/index.rs`: 12-byte slots of a 4-byte relative offset and an 8-byte store position in a
 * memory-mapped file that is `max` bytes long while open and is cut to the written slots by a clean close.
 */
module LogIndex {
  import opened Bytes
  import opened RaftTypes

  const OFF_WIDTH: nat := 4
  const ENTIRE_WIDTH: nat := 12

  // Largest index for which relative offsets fit in 32 bits and stay apart from the 0xFF filler.
  const MAX_INDEX_BYTES: nat := 12 * (U32_LIMIT - 1)

  /** The mapped bytes and the number of them in use. */
  datatype Table = Table(mmap: seq<Byte>, size: nat)

  function Slot(offset: nat, pos: nat): (s: seq<Byte>)
    ensures |s| == 12
  {
    BigEndian(offset, 4) + BigEndian(pos, 8)
  }

  /** Four bytes of relative offset, then eight bytes of store position. */
  lemma SlotLayout()
    ensures Slot(0x0102_0304, 0x0102_0304_0506_0708) == [1, 2, 3, 4] + [1, 2, 3, 4, 5, 6, 7, 8]
  {
    CountingBytes();
  }

  function SlotOffset(mmap: seq<Byte>, k: nat): nat
    requires 12 * k + 12 <= |mmap|
  {
    FromBigEndian(mmap[12 * k..12 * k + 4])
  }

  function SlotPosition(mmap: seq<Byte>, k: nat): nat
    requires 12 * k + 12 <= |mmap|
  {
    FromBigEndian(mmap[12 * k + 4..12 * k + 12])
  }

  /** `recover_size` from slot k on: go on while the slot holds its own number. */
  function Recovered(mmap: seq<Byte>, k: nat): (size: nat)
    requires 12 * k <= |mmap|
    ensures 12 * k <= size <= |mmap| && size % 12 == 0
    ensures forall j :: k <= j < size / 12 ==> SlotOffset(mmap, j) == j
    ensures size + 12 <= |mmap| ==> SlotOffset(mmap, size / 12) != size / 12
    decreases |mmap| - 12 * k
  {
    if 12 * k + 12 <= |mmap| && SlotOffset(mmap, k) == k then Recovered(mmap, k + 1) else 12 * k
  }

  /** `Index::new` on a file with the given contents, which is never longer than the configured size. */
  function Opened(file: seq<Byte>, max: nat): (t: Table)
    requires |file| <= max
    ensures t.size <= |t.mmap| == max
  {
    var mmap := SetLength(file, max);
    if file == [] then Table(Repeat(0xFF, max), 0)
    else if |file| == max then Table(mmap, Recovered(mmap, 0))
    else Table(mmap, |file|)
  }

  /**
   * What opening finds: no slot in a new file, which is filled with 0xFF; all of a shorter file, whatever it holds,
   * with zero bytes behind it; in a file of full length the slots up to the first that does not hold its own number.
   */
  lemma OpeningRules(file: seq<Byte>, max: nat, t: Table)
    requires |file| <= max && t == Opened(file, max)
    ensures file == [] ==> t.size == 0 && Filled(t.mmap, 0, 0xFF)
    ensures file != [] ==> file <= t.mmap && Filled(t.mmap, |file|, 0)
    ensures 0 < |file| < max ==> t.size == |file|
    ensures 0 < |file| == max ==>
              && t.size % 12 == 0 && (forall k :: 0 <= k < Count(t) ==> SlotOffset(file, k) == k)
              && (t.size + 12 <= max ==> SlotOffset(file, Count(t)) != Count(t))
  {
    assert |file| == max ==> SetLength(file, max) == file;
  }

  predicate HasRoom(t: Table) {
    t.size + 12 <= |t.mmap|
  }

  function Written(t: Table, offset: nat, pos: nat): Table {
    if HasRoom(t) then Table(t.mmap[..t.size] + Slot(offset, pos) + t.mmap[t.size + 12..], t.size + 12) else t
  }

  /** The file left by a clean close; an abrupt stop leaves all of `mmap`. */
  function Closed(t: Table): seq<Byte>
    requires t.size <= |t.mmap|
  {
    t.mmap[..t.size]
  }

  function Count(t: Table): nat {
    t.size / 12
  }

  predicate Filled(mmap: seq<Byte>, start: nat, b: Byte) {
    forall i :: start <= i < |mmap| ==> mmap[i] == b
  }

  /** Every used slot holds its own number; the rest is 0xFF, or zero if a slot is used or there are none. */
  predicate Sound(t: Table) {
    && t.size % 12 == 0 && t.size <= |t.mmap| <= MAX_INDEX_BYTES
    && (forall k :: 0 <= k < Count(t) ==> SlotOffset(t.mmap, k) == k)
    && (Filled(t.mmap, t.size, 0xFF) || ((t.size > 0 || |t.mmap| < 12) && Filled(t.mmap, t.size, 0)))
  }

  lemma FillerIsNoOffset(mmap: seq<Byte>, k: nat, b: Byte)
    requires 12 * k + 12 <= |mmap| && Filled(mmap, 12 * k, b)
    ensures b == 0 ==> SlotOffset(mmap, k) == 0
    ensures b == 0xFF ==> SlotOffset(mmap, k) == U32_LIMIT - 1
  {
    var s := mmap[12 * k..12 * k + 4];
    assert s == [b, b, b, b];
    assert s[..3] == [b, b, b] && s[..3][..2] == [b, b] && s[..3][..2][..1] == [b];
    assert FromBigEndian([b]) == b;
    assert FromBigEndian([b, b]) == 256 * b + b;
    assert FromBigEndian([b, b, b]) == 256 * (256 * b + b) + b;
  }

  lemma {:induction false} ScanStopsAtSize(t: Table, k: nat)
    requires Sound(t) && k <= Count(t)
    ensures Recovered(t.mmap, k) == t.size
    decreases Count(t) - k
  {
    if k < Count(t) {
      ScanStopsAtSize(t, k + 1);
    } else if HasRoom(t) {
      FillerIsNoOffset(t.mmap, k, if Filled(t.mmap, t.size, 0xFF) then 0xFF else 0);
    }
  }

  /** A slot is written behind the used ones and nothing else changes. */
  lemma WriteIsLocal(t: Table, offset: nat, pos: nat, t': Table)
    requires HasRoom(t) && t' == Written(t, offset, pos)
    ensures |t'.mmap| == |t.mmap| && t'.size == t.size + 12
    ensures t'.mmap[..t.size] == t.mmap[..t.size]
    ensures forall i :: t'.size <= i < |t'.mmap| ==> t'.mmap[i] == t.mmap[i]
  {
  }

  lemma WriteKeepsSound(t: Table, pos: nat)
    requires Sound(t) && pos < U64_LIMIT
    ensures var t' := Written(t, Count(t), pos);
            && Sound(t') && |t'.mmap| == |t.mmap|
            && (HasRoom(t) ==> Count(t') == Count(t) + 1 && SlotPosition(t'.mmap, Count(t)) == pos)
            && (forall k :: 0 <= k < Count(t) ==> SlotPosition(t'.mmap, k) == SlotPosition(t.mmap, k))
  {
    if HasRoom(t) {
      var n, t' := Count(t), Written(t, Count(t), pos);
      NewSlotReadsBack(t, n, pos);
      WriteIsLocal(t, n, pos, t');
      SameSlotsReadAlike(t, t'.(size := t.size));
      forall k | 0 <= k < Count(t')
        ensures SlotOffset(t'.mmap, k) == k
      {
        if k < n {
          assert SlotOffset(t.mmap, k) == k;
        }
      }
    }
  }

  lemma NewSlotReadsBack(t: Table, n: nat, pos: nat)
    requires HasRoom(t) && t.size == 12 * n && n < U32_LIMIT && pos < U64_LIMIT
    ensures var t' := Written(t, n, pos);
            |t'.mmap| == |t.mmap| && SlotOffset(t'.mmap, n) == n && SlotPosition(t'.mmap, n) == pos
  {
    var t' := Written(t, n, pos);
    RoundTrip32(n);
    RoundTrip64(pos);
    assert t'.mmap[12 * n..12 * n + 12] == Slot(n, pos);
    assert t'.mmap[12 * n..12 * n + 4] == t'.mmap[12 * n..12 * n + 12][..4] == BigEndian(n, 4);
    assert t'.mmap[12 * n + 4..12 * n + 12] == t'.mmap[12 * n..12 * n + 12][4..] == BigEndian(pos, 8);
  }

  /** t' holds the same slots as t. */
  predicate SameSlots(t: Table, t': Table)
    requires t.size <= |t.mmap|
  {
    && t'.size == t.size && |t'.mmap| == |t.mmap|
    && t'.mmap[..t.size] == t.mmap[..t.size]
  }

  lemma SamePrefixSlice(a: seq<Byte>, b: seq<Byte>, size: nat, low: nat, high: nat)
    requires low <= high <= size <= |a| && size <= |b| && a[..size] == b[..size]
    ensures a[low..high] == b[low..high]
  {
    assert a[low..high] == a[..size][low..high];
    assert b[low..high] == b[..size][low..high];
  }

  lemma SameSlotsReadAlike(t: Table, t': Table)
    requires t.size % 12 == 0 && t.size <= |t.mmap| && SameSlots(t, t')
    ensures forall k :: 0 <= k < Count(t) ==> SlotOffset(t'.mmap, k) == SlotOffset(t.mmap, k)
    ensures forall k :: 0 <= k < Count(t) ==> SlotPosition(t'.mmap, k) == SlotPosition(t.mmap, k)
  {
    forall k | 0 <= k < Count(t)
      ensures SlotOffset(t'.mmap, k) == SlotOffset(t.mmap, k)
      ensures SlotPosition(t'.mmap, k) == SlotPosition(t.mmap, k)
    {
      SamePrefixSlice(t.mmap, t'.mmap, t.size, 12 * k, 12 * k + 4);
      SamePrefixSlice(t.mmap, t'.mmap, t.size, 12 * k + 4, 12 * k + 12);
    }
  }

  /** An abrupt stop leaves the whole mapping, and opening it finds exactly the written slots. */
  lemma StopReopens(t: Table)
    requires Sound(t)
    ensures Opened(t.mmap, |t.mmap|) == t
  {
    if t.mmap != [] {
      ScanStopsAtSize(t, 0);
      assert SetLength(t.mmap, |t.mmap|) == t.mmap;
    }
  }

  lemma CloseReopens(t: Table)
    requires Sound(t)
    ensures Sound(Opened(Closed(t), |t.mmap|)) && SameSlots(t, Opened(Closed(t), |t.mmap|))
  {
    var t' := Opened(Closed(t), |t.mmap|);
    if 0 < t.size < |t.mmap| {
      assert SameSlots(t, t');
      SameSlotsReadAlike(t, t');
    } else if t.size > 0 {
      assert Closed(t) == t.mmap;
      StopReopens(t);
    }
  }

  // ---- Histories ----

  datatype IndexOp = WriteSlot(pos: nat) | CloseIndex | StopIndex

  function Apply(t: Table, op: IndexOp): (t': Table)
    requires t.size <= |t.mmap|
    ensures t'.size <= |t'.mmap| == |t.mmap|
  {
    match op
    case WriteSlot(pos) => Written(t, Count(t), pos)
    case CloseIndex => Opened(Closed(t), |t.mmap|)
    case StopIndex => Opened(t.mmap, |t.mmap|)
  }

  /** How the index file came into being: the process may stop after the file got its length but not its filler. */
  datatype Creation = Complete | Interrupted

  function Created(max: nat, creation: Creation): (t: Table)
    ensures t.size <= |t.mmap| == max
  {
    match creation
    case Complete => Opened([], max)
    case Interrupted => Opened(Repeat(0, max), max)
  }

  /** The slot that nobody wrote, with position 0, which an interrupted creation leaves behind. */
  function Phantom(max: nat, creation: Creation): seq<nat> {
    if creation.Interrupted? && 12 <= max then [0] else []
  }

  /** The positions that a history writes into the index, in order; a write to a full index is refused. */
  function Accepted(max: nat, creation: Creation, ops: seq<IndexOp>): seq<nat> {
    if ops == [] then []
    else
      var before := Accepted(max, creation, ops[..|ops| - 1]);
      match ops[|ops| - 1]
      case WriteSlot(pos) => if 12 * |Phantom(max, creation) + before| + 12 <= max then before + [pos] else before
      case _ => before
  }

  ghost predicate Holds(t: Table, max: nat, positions: seq<nat>) {
    && Sound(t) && |t.mmap| == max && Count(t) == |positions|
    && forall k :: 0 <= k < |positions| ==> SlotPosition(t.mmap, k) == positions[k]
  }

  /** The table after a history that starts with the creation of the index file. */
  function After(max: nat, creation: Creation, ops: seq<IndexOp>): (t: Table)
    ensures t.size <= |t.mmap| == max
  {
    if ops == [] then Created(max, creation)
    else Apply(After(max, creation, ops[..|ops| - 1]), ops[|ops| - 1])
  }

  /** With n slots in use and one filler byte behind them, the scan stops after n slots exactly under this condition. */
  lemma ScanIsExactIff(mmap: seq<Byte>, n: nat, filler: Byte)
    requires 12 * n <= |mmap| <= MAX_INDEX_BYTES && (filler == 0 || filler == 0xFF)
    requires Filled(mmap, 12 * n, filler) && forall k :: 0 <= k < n ==> SlotOffset(mmap, k) == k
    ensures Recovered(mmap, 0) == 12 * n <==> filler == 0xFF || n > 0 || |mmap| < 12
  {
    if filler == 0xFF || n > 0 {
      ScanStopsAtSize(Table(mmap, 12 * n), 0);
    } else if 12 <= |mmap| {
      FillerIsNoOffset(mmap, 0, 0);
    }
  }

  lemma InterruptedIsOneSlot(max: nat, zeros: seq<Byte>)
    requires 12 <= max <= MAX_INDEX_BYTES && zeros == Repeat(0, max)
    ensures Sound(Table(zeros, 12)) && SlotPosition(zeros, 0) == 0
    ensures Created(max, Interrupted) == Table(zeros, 12)
  {
    FillerIsNoOffset(zeros, 0, 0);
    ZeroPosition(zeros);
    StopReopens(Table(zeros, 12));
  }

  lemma InterruptedIsNoSlot(max: nat)
    requires max < 12
    ensures Created(max, Interrupted).size == 0
    ensures Filled(Created(max, Interrupted).mmap, 0, if max == 0 then 0xFF else 0)
  {
  }

  lemma CreatedHolds(max: nat, creation: Creation)
    requires max <= MAX_INDEX_BYTES
    ensures Holds(Created(max, creation), max, Phantom(max, creation))
  {
    if creation.Complete? {
      assert Created(max, creation) == Table(Repeat(0xFF, max), 0);
    } else if 12 <= max {
      InterruptedIsOneSlot(max, Repeat(0, max));
    } else {
      InterruptedIsNoSlot(max);
    }
  }

  lemma ZeroPosition(zeros: seq<Byte>)
    requires 12 <= |zeros| && Filled(zeros, 0, 0)
    ensures SlotPosition(zeros, 0) == 0
  {
    RoundTrip64(0);
    ZeroBytes(8);
    assert zeros[4..12] == Repeat(0, 8);
  }

  lemma ApplyHolds(t: Table, max: nat, positions: seq<nat>, op: IndexOp)
    requires Holds(t, max, positions) && (op.WriteSlot? ==> op.pos < U64_LIMIT)
    ensures Holds(Apply(t, op), max,
                  if op.WriteSlot? && 12 * |positions| + 12 <= max then positions + [op.pos] else positions)
  {
    match op {
      case WriteSlot(pos) =>
        WriteKeepsSound(t, pos);
      case CloseIndex =>
        CloseReopens(t);
        SameSlotsReadAlike(t, Apply(t, op));
      case StopIndex =>
        StopReopens(t);
    }
  }

  lemma {:induction false} HistoryHolds(max: nat, creation: Creation, ops: seq<IndexOp>)
    requires max <= MAX_INDEX_BYTES
    requires forall i :: 0 <= i < |ops| && ops[i].WriteSlot? ==> ops[i].pos < U64_LIMIT
    ensures Holds(After(max, creation, ops), max, Phantom(max, creation) + Accepted(max, creation, ops))
  {
    var first := Phantom(max, creation);
    if ops == [] {
      CreatedHolds(max, creation);
      assert first + [] == first;
    } else {
      var before, op := ops[..|ops| - 1], ops[|ops| - 1];
      var accepted := Accepted(max, creation, before);
      HistoryHolds(max, creation, before);
      ApplyHolds(After(max, creation, before), max, first + accepted, op);
      assert op.WriteSlot? ==> first + accepted + [op.pos] == first + (accepted + [op.pos]);
    }
  }

  /**
   * After every history the scan finds exactly the slots that were written if and only if the creation was not
   * interrupted, or the index has no slot at all; otherwise it finds one slot too many for good.
   */
  lemma RecoveryIsExactIff(max: nat, creation: Creation, ops: seq<IndexOp>)
    requires max <= MAX_INDEX_BYTES
    requires forall i :: 0 <= i < |ops| && ops[i].WriteSlot? ==> ops[i].pos < U64_LIMIT
    ensures var found, written := Recovered(After(max, creation, ops).mmap, 0), 12 * |Accepted(max, creation, ops)|;
            && found == After(max, creation, ops).size
            && (found == written <==> creation.Complete? || max < 12)
            && (found != written ==> found == written + 12)
  {
    HistoryHolds(max, creation, ops);
    ScanStopsAtSize(After(max, creation, ops), 0);
  }

  // ---- The index as an object over the mapped buffer ----

  method RecoverSize(mmap: array<Byte>) returns (size: nat)
    ensures size == Recovered(mmap[..], 0)
  {
    size := 0;
    var expected: nat := 0;
    ghost var bytes := mmap[..];
    while size + ENTIRE_WIDTH <= mmap.Length
      invariant size == 12 * expected <= mmap.Length
      invariant Recovered(bytes, expected) == Recovered(bytes, 0)
    {
      var off := FromBigEndian(mmap[size..size + OFF_WIDTH]);
      assert mmap[size..size + OFF_WIDTH] == bytes[12 * expected..12 * expected + 4];
      if off != expected {
        break;
      }
      expected := expected + 1;
      size := size + ENTIRE_WIDTH;
    }
  }

  class Index {
    const mmap: array<Byte>
    var size: nat
    var fileLength: nat

    predicate Valid()
      reads this, mmap
    {
      size <= mmap.Length && fileLength <= mmap.Length
    }

    function Value(): Table
      reads this, mmap
    {
      Table(mmap[..], size)
    }

    function OnDisk(): seq<Byte>
      reads this, mmap
      requires Valid()
    {
      mmap[..fileLength]
    }

    constructor (file: seq<Byte>, max: nat)
      requires |file| <= max
      ensures Valid() && fresh(mmap)
      ensures Value() == Opened(file, max) && OnDisk() == Value().mmap
    {
      var bytes := SetLength(file, max);
      var buffer := new Byte[max](i requires 0 <= i < max => bytes[i]);
      assert buffer[..] == bytes;
      var used := |file|;
      if |file| == 0 {
        forall i | 0 <= i < max {
          buffer[i] := 0xFF;
        }
        assert buffer[..] == Repeat(0xFF, max);
      } else if |file| == max {
        used := RecoverSize(buffer);
      }
      mmap, size, fileLength := buffer, used, max;
    }

    method Write(offset: nat, pos: nat) returns (ok: bool)
      requires Valid() && fileLength == mmap.Length
      modifies this, mmap
      ensures Valid() && fileLength == mmap.Length
      ensures ok == HasRoom(old(Value()))
      ensures Value() == Written(old(Value()), offset, pos)
    {
      if size + ENTIRE_WIDTH > mmap.Length {
        return false;
      }
      var start := size;
      var bytes := BigEndian(offset, 4) + BigEndian(pos, 8);
      forall i | start <= i < start + ENTIRE_WIDTH {
        mmap[i] := bytes[i - start];
      }
      size := size + ENTIRE_WIDTH;
      assert mmap[..] == old(mmap[..start]) + Slot(offset, pos) + old(mmap[start + 12..]);
      return true;
    }

    method Read(off: nat) returns (r: Option<(nat, nat)>)
      requires Valid()
      ensures r == if 12 * off + 12 > size then None
                   else Some((SlotOffset(mmap[..], off), SlotPosition(mmap[..], off)))
    {
      var start := off * ENTIRE_WIDTH;
      if start + ENTIRE_WIDTH > size {
        return None;
      }
      assert mmap[start..start + OFF_WIDTH] == mmap[..][start..start + OFF_WIDTH];
      assert mmap[start + OFF_WIDTH..start + ENTIRE_WIDTH] == mmap[..][start + OFF_WIDTH..start + ENTIRE_WIDTH];
      return Some((FromBigEndian(mmap[start..start + OFF_WIDTH]),
                   FromBigEndian(mmap[start + OFF_WIDTH..start + ENTIRE_WIDTH])));
    }

    method CurrentOffset() returns (n: nat)
      ensures n == Count(Value())
    {
      n := size / ENTIRE_WIDTH;
    }

    method Close()
      requires Valid()
      modifies this
      ensures Valid() && Value() == old(Value()) && OnDisk() == Closed(Value()) == mmap[..size]
    {
      fileLength := size;
    }
  }
}
