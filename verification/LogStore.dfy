/** The store file of `src/log/store.rs`: records behind a big-endian length, written through a buffer. */
module LogStore {
  import opened Bytes
  import opened RaftTypes

  type Record = seq<Byte>

  const LENGTH_WIDTH: nat := 8

  function Framed(record: Record): seq<Byte> {
    BigEndian(|record|, 8) + record
  }

  /** The record that starts at `pos`, or None where `read_exact_at` runs past the end of the file. */
  function ReadRecord(contents: seq<Byte>, pos: nat): Option<Record> {
    if pos + 8 > |contents| then None
    else
      var length := FromBigEndian(contents[pos..pos + 8]);
      if pos + 8 + length > |contents| then None
      else Some(contents[pos + 8..pos + 8 + length])
  }

  /** Eight bytes of length, then the record. */
  lemma FrameLayout(record: Record)
    requires |record| < 256
    ensures Framed(record) == [0, 0, 0, 0, 0, 0, 0, |record|] + record
  {
    SmallNumberBytes(|record|, 8);
  }

  lemma FramedRecordReadsBack(contents: seq<Byte>, record: Record, more: seq<Byte>)
    requires |record| < U64_LIMIT
    ensures ReadRecord(contents + Framed(record) + more, |contents|) == Some(record)
  {
    var all, pos := contents + Framed(record) + more, |contents|;
    RoundTrip64(|record|);
    var length := BigEndian(|record|, 8);
    assert all == contents + length + (record + more);
    Middle(contents, length, record + more);
    assert all == (contents + length) + record + more;
    Middle(contents + length, record, more);
  }

  lemma ReadIgnoresLaterBytes(contents: seq<Byte>, more: seq<Byte>, pos: nat)
    requires ReadRecord(contents, pos) != None
    ensures ReadRecord(contents + more, pos) == ReadRecord(contents, pos)
  {
    var all := contents + more;
    assert all[pos..pos + 8] == contents[pos..pos + 8];
    var length := FromBigEndian(contents[pos..pos + 8]);
    assert all[pos + 8..pos + 8 + length] == contents[pos + 8..pos + 8 + length];
  }

  /** A prefix of the contents gives back a record exactly if it holds all of it. */
  lemma ReadFromPrefix(disk: seq<Byte>, contents: seq<Byte>, pos: nat)
    requires disk <= contents && ReadRecord(contents, pos) != None
    ensures var record := ReadRecord(contents, pos).value;
            ReadRecord(disk, pos) == if pos + 8 + |record| <= |disk| then Some(record) else None
  {
    if pos + 8 <= |disk| {
      assert disk[pos..pos + 8] == contents[pos..pos + 8];
      var length := FromBigEndian(contents[pos..pos + 8]);
      if pos + 8 + length <= |disk| {
        assert disk[pos + 8..pos + 8 + length] == contents[pos + 8..pos + 8 + length];
      }
    }
  }

  class Store {
    const syncWrites: bool
    var file: seq<Byte>
    var buffer: seq<Byte>
    var size: nat

    predicate Valid()
      reads this
    {
      size == |file| + |buffer| && (syncWrites ==> buffer == [])
    }

    /** What has been appended, whether still buffered or already in the file. */
    function Contents(): seq<Byte>
      reads this
    {
      file + buffer
    }

    constructor (contents: seq<Byte>, syncWrites: bool)
      ensures Valid() && file == Contents() == contents && this.syncWrites == syncWrites
    {
      this.syncWrites := syncWrites;
      file, buffer, size := contents, [], |contents|;
    }

    method Flush()
      requires Valid()
      modifies this
      ensures Valid() && file == Contents() == old(Contents())
    {
      file, buffer := file + buffer, [];
    }

    /** The buffered writer may pass on any part of what it holds at any time. */
    method Spill()
      requires Valid()
      modifies this
      ensures Valid() && Contents() == old(Contents()) && old(file) <= file && size == old(size)
    {
      var spilled :| 0 <= spilled <= |buffer|;
      file, buffer := file + buffer[..spilled], buffer[spilled..];
    }

    method Append(record: Record) returns (written: nat)
      requires Valid()
      modifies this
      ensures Valid()
      ensures Contents() == old(Contents()) + Framed(record) && written == |Framed(record)|
      ensures old(file) <= file
    {
      Spill();
      buffer := buffer + BigEndian(|record|, 8);
      buffer := buffer + record;
      written := |record| + LENGTH_WIDTH;
      size := size + written;
      assert Contents() == old(Contents()) + Framed(record);
      if syncWrites {
        file, buffer := file + buffer, [];
      }
    }

    method Read(pos: nat) returns (r: Option<Record>)
      requires Valid()
      modifies this
      ensures Valid() && file == Contents() == old(Contents())
      ensures r == ReadRecord(Contents(), pos)
    {
      Flush();
      if pos + 8 > |file| {
        return None;
      }
      var length := FromBigEndian(file[pos..pos + 8]);
      if pos + 8 + length > |file| {
        return None;
      }
      return Some(file[pos + 8..pos + 8 + length]);
    }

    method Len() returns (n: nat)
      requires Valid()
      ensures n == |Contents()|
    {
      n := size;
    }

    method Close()
      requires Valid()
      modifies this
      ensures Valid() && file == Contents() == old(Contents())
    {
      Flush();
    }
  }
}
