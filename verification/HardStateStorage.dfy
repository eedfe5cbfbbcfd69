/** The hard-state file of `src/raft/storage.rs`: big-endian term, big-endian vote length, vote bytes. */
module HardStateStorage {
  import opened Bytes
  import opened RaftTypes

  /** What `load_state` gives back; Panics stands for a failed `expect`. */
  datatype Loaded = Loaded(state: HardState) | Panics

  /** `write_all_at`: overwrite in place, with zero bytes in any gap before `pos`. */
  function WriteAt(file: seq<Byte>, pos: nat, bytes: seq<Byte>): (r: seq<Byte>)
    ensures |r| == Max(|file|, pos + |bytes|)
    ensures r[pos..pos + |bytes|] == bytes
    ensures forall i :: 0 <= i < |file| && !(pos <= i < pos + |bytes|) ==> r[i] == file[i]
  {
    var f := SetLength(file, Max(|file|, pos + |bytes|));
    f[..pos] + bytes + f[pos + |bytes|..]
  }

  predicate Within(b: Byte, low: Byte, high: Byte) { low <= b <= high }

  /** Well-formed UTF-8, which `String::from_utf8` accepts: no overlong forms, no surrogates, at most U+10FFFF. */
  predicate Utf8(s: seq<Byte>) {
    if s == [] then true
    else if s[0] < 0x80 then Utf8(s[1..])
    else if |s| >= 2 && Within(s[0], 0xC2, 0xDF) then Within(s[1], 0x80, 0xBF) && Utf8(s[2..])
    else if |s| >= 3 && Within(s[0], 0xE0, 0xEF) then
      && Within(s[1], if s[0] == 0xE0 then 0xA0 else 0x80, if s[0] == 0xED then 0x9F else 0xBF)
      && Within(s[2], 0x80, 0xBF)
      && Utf8(s[3..])
    else
      && |s| >= 4 && Within(s[0], 0xF0, 0xF4)
      && Within(s[1], if s[0] == 0xF0 then 0x90 else 0x80, if s[0] == 0xF4 then 0x8F else 0xBF)
      && Within(s[2], 0x80, 0xBF) && Within(s[3], 0x80, 0xBF)
      && Utf8(s[4..])
  }

  /** A state the Rust types can hold: a u64 term and a vote whose name is a String. */
  predicate Representable(state: HardState) {
    && state.currentTerm < U64_LIMIT
    && (state.votedFor != None ==> Utf8(state.votedFor.value.name) && |state.votedFor.value.name| < U64_LIMIT)
  }

  function VoteBytes(state: HardState): seq<Byte> {
    if state.votedFor == None then [] else state.votedFor.value.name
  }

  function Encoded(state: HardState): seq<Byte> {
    BigEndian(state.currentTerm, 8) + BigEndian(|VoteBytes(state)|, 8) + VoteBytes(state)
  }

  function Decoded(file: seq<Byte>): Loaded {
    if file == [] then Loaded(HardState(0, None))
    else if |file| < 16 then Panics
    else
      var term := FromBigEndian(file[..8]);
      var length := FromBigEndian(file[8..16]);
      if length == 0 then Loaded(HardState(term, None))
      else if |file| < 16 + length || !Utf8(file[16..16 + length]) then Panics
      else Loaded(HardState(term, Some(NodeId(file[16..16 + length]))))
  }

  class Storage {
    var file: seq<Byte>

    constructor (contents: seq<Byte>)
      ensures file == contents
    {
      file := contents;
    }

    /** Whatever the file held before, longer or shorter, it then holds exactly the new state. */
    method SaveState(state: HardState)
      modifies this
      ensures file == Encoded(state)
    {
      file := WriteAt(file, 0, BigEndian(state.currentTerm, 8));
      match state.votedFor {
        case Some(vote) =>
          var size := |vote.name|;
          file := WriteAt(file, 8, BigEndian(size, 8));
          file := WriteAt(file, 16, vote.name);
          file := SetLength(file, 16 + size);
        case None =>
          file := WriteAt(file, 8, BigEndian(0, 8));
          file := SetLength(file, 16);
      }
      assert file[..8] == BigEndian(state.currentTerm, 8);
      assert file[8..16] == BigEndian(|VoteBytes(state)|, 8);
      assert file[16..] == VoteBytes(state);
      assert file == file[..8] + file[8..16] + file[16..];
    }

    method LoadState() returns (r: Loaded)
      ensures r == Decoded(file)
    {
      if |file| == 0 {
        return Loaded(HardState(0, None));
      }
      if |file| < 8 {
        return Panics;
      }
      var term := FromBigEndian(file[0..8]);
      if |file| < 16 {
        return Panics;
      }
      var length := FromBigEndian(file[8..16]);
      var votedFor: Option<NodeId> := None;
      if length != 0 {
        if |file| < 16 + length {
          return Panics;
        }
        var name := file[16..16 + length];
        if !Utf8(name) {
          return Panics;
        }
        votedFor := Some(NodeId(name));
      }
      return Loaded(HardState(term, votedFor));
    }
  }

  /** A saved state is loaded unchanged exactly if its vote is absent or has a non-empty name. */
  lemma SavedStateLoads(state: HardState)
    requires Representable(state)
    ensures Decoded(Encoded(state)) == Loaded(state) <==> state.votedFor != Some(NodeId([]))
  {
    var file, vote := Encoded(state), VoteBytes(state);
    RoundTrip64(state.currentTerm);
    RoundTrip64(|vote|);
    assert file[..8] == BigEndian(state.currentTerm, 8);
    assert file[8..16] == BigEndian(|vote|, 8);
    assert file[16..16 + |vote|] == vote;
  }

  /** The documented layout on an example: eight bytes of term, eight bytes of length, the name; no vote is length 0. */
  lemma DocumentedLayout(name: seq<Byte>)
    requires 0 < |name| < 256
    ensures Encoded(HardState(0x0102_0304_0506_0708, Some(NodeId(name))))
            == [1, 2, 3, 4, 5, 6, 7, 8] + [0, 0, 0, 0, 0, 0, 0, |name|] + name
    ensures Encoded(HardState(0x0102_0304_0506_0708, None))
            == [1, 2, 3, 4, 5, 6, 7, 8] + [0, 0, 0, 0, 0, 0, 0, 0]
  {
    CountingBytes();
    SmallNumberBytes(|name|, 8);
    SmallNumberBytes(0, 8);
  }

  /** One to four byte characters are accepted; stray, overlong, surrogate and too large ones are not. */
  lemma Utf8Examples()
    ensures Utf8([0x61, 0x62, 0x63]) && Utf8([0xC3, 0xA9])
    ensures Utf8([0xE2, 0x82, 0xAC]) && Utf8([0xF0, 0x9F, 0x98, 0x80])
    ensures !Utf8([0x80]) && !Utf8([0xC3]) && !Utf8([0xC3, 0x61]) && !Utf8([0xE2, 0x82])
    ensures !Utf8([0xC1, 0xBF]) && !Utf8([0xE0, 0x9F, 0xBF]) && !Utf8([0xF0, 0x8F, 0xBF, 0xBF])
    ensures !Utf8([0xED, 0xA0, 0x80]) && !Utf8([0xF4, 0x90, 0x80, 0x80]) && !Utf8([0xF5, 0x80, 0x80, 0x80])
  {
    assert Utf8([]);
    assert Utf8([0x63]) && Utf8([0x62, 0x63]);
    assert [0xC3, 0xA9][2..] == [] && [0xE2, 0x82, 0xAC][3..] == [] && [0xF0, 0x9F, 0x98, 0x80][4..] == [];
  }

  /** Loading fails exactly on a file too short for what it announces, or with a name that is not UTF-8. */
  lemma LoadPanicsIff(file: seq<Byte>)
    ensures Decoded(file) == Panics <==>
            && file != []
            && (|file| < 16 ||
                (var length := FromBigEndian(file[8..16]);
                 length != 0 && (|file| < 16 + length || !Utf8(file[16..16 + length]))))
  {
  }
}
