/** Runs of records that continue one another: the shape behind a log cut into segments. */
module RecordChunks {
  import opened LogStore

  datatype Chunk = Chunk(base: nat, records: seq<Record>) {
    function Next(): nat { base + |records| }
  }

  predicate Continues(a: Chunk, b: Chunk) {
    a.records != [] && b.base == a.Next()
  }

  /** Each chunk begins where the one before ends, and only the last may be empty. */
  ghost predicate Contiguous(cs: seq<Chunk>) {
    forall i {:trigger Continues(cs[i], cs[i + 1])} :: 0 <= i < |cs| - 1 ==> Continues(cs[i], cs[i + 1])
  }

  function Flat(cs: seq<Chunk>): seq<Record> {
    if cs == [] then [] else Flat(cs[..|cs| - 1]) + cs[|cs| - 1].records
  }

  lemma FlatAppend(cs: seq<Chunk>, c: Chunk)
    ensures Flat(cs + [c]) == Flat(cs) + c.records
  {
    assert (cs + [c])[..|cs|] == cs;
  }

  lemma ContiguousPrefix(cs: seq<Chunk>, k: nat)
    requires Contiguous(cs) && k <= |cs|
    ensures Contiguous(cs[..k])
  {
    forall i | 0 <= i < k - 1
      ensures Continues(cs[..k][i], cs[..k][i + 1])
    {
      assert Continues(cs[i], cs[i + 1]);
    }
  }

  /** Adding a chunk that begins where the last one ends, or replacing the last chunk at the same base. */
  lemma ContiguousAppend(cs: seq<Chunk>, c: Chunk)
    requires Contiguous(cs) && (cs != [] ==> Continues(cs[|cs| - 1], c))
    ensures Contiguous(cs + [c])
  {
    var cs' := cs + [c];
    forall i | 0 <= i < |cs|
      ensures Continues(cs'[i], cs'[i + 1])
    {
      if i < |cs| - 1 {
        assert Continues(cs[i], cs[i + 1]);
      }
    }
  }

  lemma LastContinues(cs: seq<Chunk>)
    requires Contiguous(cs) && |cs| > 1
    ensures Continues(cs[|cs| - 2], cs[|cs| - 1])
  {
    var i := |cs| - 2;
    assert Continues(cs[i], cs[i + 1]);
  }

  /** More records in the last chunk are more records at the end. */
  lemma GrowLast(cs: seq<Chunk>, more: seq<Record>)
    requires cs != [] && Contiguous(cs)
    ensures var n := |cs| - 1;
            var cs' := cs[..n] + [Chunk(cs[n].base, cs[n].records + more)];
            Contiguous(cs') && Flat(cs') == Flat(cs) + more && cs'[0].base == cs[0].base
  {
    var n := |cs| - 1;
    var c := Chunk(cs[n].base, cs[n].records + more);
    ContiguousPrefix(cs, n);
    if n > 0 {
      LastContinues(cs);
    }
    ContiguousAppend(cs[..n], c);
    FlatAppend(cs[..n], c);
  }

  /** The first k chunks flatten to the records before chunk k. */
  lemma {:induction false} FlatPrefix(cs: seq<Chunk>, k: nat)
    requires Contiguous(cs) && k < |cs|
    ensures Flat(cs[..k]) <= Flat(cs)
    ensures |Flat(cs[..k])| == cs[k].base - cs[0].base
    ensures cs[|cs| - 1].Next() == cs[0].base + |Flat(cs)|
  {
    var front := cs[..|cs| - 1];
    if |cs| > 1 {
      ContiguousPrefix(cs, |cs| - 1);
      FlatPrefix(front, if k < |cs| - 1 then k else 0);
      LastContinues(cs);
      if k < |cs| - 1 {
        assert front[..k] == cs[..k];
      }
    }
  }

  lemma FlatExtent(cs: seq<Chunk>)
    requires Contiguous(cs) && cs != []
    ensures cs[|cs| - 1].Next() == cs[0].base + |Flat(cs)|
  {
    FlatPrefix(cs, 0);
  }

  /** Record j of chunk i is the record at its offset in the whole sequence. */
  lemma {:induction false} FlatAt(cs: seq<Chunk>, i: nat, j: nat)
    requires Contiguous(cs) && i < |cs| && j < |cs[i].records|
    ensures cs[0].base <= cs[i].base && cs[i].base - cs[0].base + j < |Flat(cs)|
    ensures Flat(cs)[cs[i].base - cs[0].base + j] == cs[i].records[j]
  {
    FlatPrefix(cs, i);
    if i < |cs| - 1 {
      ContiguousPrefix(cs, |cs| - 1);
      FlatAt(cs[..|cs| - 1], i, j);
    }
  }

  /** Every offset within the whole extent lies in some chunk. */
  lemma {:induction false} ChunkFor(cs: seq<Chunk>, off: nat) returns (i: nat)
    requires Contiguous(cs) && cs != [] && cs[0].base <= off < cs[|cs| - 1].Next()
    ensures i < |cs| && cs[i].base <= off < cs[i].Next()
  {
    if off >= cs[|cs| - 1].base {
      i := |cs| - 1;
    } else {
      LastContinues(cs);
      ContiguousPrefix(cs, |cs| - 1);
      i := ChunkFor(cs[..|cs| - 1], off);
    }
  }

  lemma {:induction false} BasesRise(cs: seq<Chunk>)
    requires Contiguous(cs)
    ensures forall i, j :: 0 <= i < j < |cs| ==> cs[i].base < cs[j].base
  {
    if |cs| > 1 {
      var front := cs[..|cs| - 1];
      ContiguousPrefix(cs, |cs| - 1);
      BasesRise(front);
      LastContinues(cs);
      assert forall i :: 0 <= i < |cs| - 1 ==> front[i].base == cs[i].base;
    }
  }
}
