/** trace_cutter: re-assembling 512-byte records from a decompressed stream of arbitrary slices and writing
    them out N to a chunk. */
module Cutter {
  import opened Bytes
  import opened ChampSim

  // ---- what the chunks must be ----

  /** The longest prefix of whole records. */
  function WholeRecords(s: seq<Byte>): seq<Byte>
  {
    s[..|s| / RECORD_SIZE * RECORD_SIZE]
  }

  /** Chunks of n records each, the last one perhaps smaller, none empty. */
  ghost predicate Cut(chunks: seq<seq<Byte>>, n: nat, w: seq<Byte>)
  {
    && Flatten(chunks) == w
    && (forall i :: 0 <= i < |chunks| - 1 ==> |chunks[i]| == n * RECORD_SIZE)
    && (forall i :: 0 <= i < |chunks| ==> 0 < |chunks[i]| <= n * RECORD_SIZE)
  }

  /** There is one way to cut a stream, so the chunks do not depend on how it was sliced. */
  lemma {:induction false} CutUnique(a: seq<seq<Byte>>, b: seq<seq<Byte>>, n: nat, w: seq<Byte>)
    requires Cut(a, n, w) && Cut(b, n, w)
    ensures a == b
  {
    if a == [] || b == [] {
      assert w == [];
    } else {
      var x, y := a[0], b[0];
      CutHead(a, n, w);
      CutHead(b, n, w);
      assert x == y;
      CutUnique(a[1..], b[1..], n, w[|x|..]);
      assert a == [x] + a[1..] && b == [y] + b[1..];
    }
  }

  /** The first chunk is as much of the stream as fits. */
  lemma CutHead(cs: seq<seq<Byte>>, n: nat, w: seq<Byte>)
    requires cs != [] && Cut(cs, n, w)
    ensures |cs[0]| == Min(|w|, n * RECORD_SIZE) && cs[0] == w[..|cs[0]|]
    ensures Cut(cs[1..], n, w[|cs[0]|..])
  {
  }

  /** How many chunks that makes. */
  lemma {:induction false} CutCount(cs: seq<seq<Byte>>, n: nat, w: seq<Byte>, records: nat)
    requires n > 0 && Cut(cs, n, w) && |w| == records * RECORD_SIZE
    ensures |cs| == (records + n - 1) / n
  {
    if cs == [] {
      assert records == 0;
      CeilingStart(n);
    } else {
      CutHead(cs, n, w);
      if records <= n {
        assert w[|cs[0]|..] == [];
        CutCount(cs[1..], n, w[|cs[0]|..], 0);
        CeilingStart(n);
        CeilingOne(records, n);
      } else {
        CutCount(cs[1..], n, w[|cs[0]|..], records - n);
        CeilingStep(records - 1, n);
      }
    }
  }

  lemma CeilingStart(n: nat)
    requires n > 0
    ensures (n - 1) / n == 0
  {
  }

  lemma CeilingOne(r: nat, n: nat)
    requires 0 < r <= n
    ensures (r + n - 1) / n == 1
  {
    CeilingStep(r - 1, n);
  }

  lemma CeilingStep(a: nat, n: nat)
    requires n > 0
    ensures (a + n) / n == a / n + 1
  {
    var d := (a + n) / n - (a / n + 1);
    assert d * n == a % n - (a + n) % n;
    MultipleIsFar(d, n);
  }

  lemma MultipleIsFar(d: int, n: nat)
    ensures d >= 1 ==> d * n >= n
    ensures d <= -1 ==> d * n <= 0 - n
  {
    assert d * n - n == (d - 1) * n && d * n + n == (d + 1) * n;
  }

  // ---- the program ----

  class Splitter {
    const chunkSize: nat  // records per chunk
    const carry: array<Byte>
    var carryLen: nat
    var chunks: seq<seq<Byte>>  // the files already closed
    var current: seq<Byte>      // what the open file holds
    var writerOpen: bool
    var chunkRecords: nat
    var totalRecords: nat

    /** Everything written so far, to closed files and the open one. */
    ghost function Written(): seq<Byte>
      reads this
    {
      Flatten(chunks) + current
    }

    /** Between calls: closed files are full, the open one is not, and a file is open only if it holds
        something. */
    ghost predicate Valid()
      reads this
    {
      && chunkSize > 0 && carry.Length == RECORD_SIZE
      && (forall i :: 0 <= i < |chunks| ==> |chunks[i]| == chunkSize * RECORD_SIZE)
      && |current| == chunkRecords * RECORD_SIZE && chunkRecords < chunkSize
      && (writerOpen <==> chunkRecords > 0)
      && |Written()| == totalRecords * RECORD_SIZE
    }

    /** The stream so far has been written, but for a partial record in the carry buffer. */
    ghost predicate Consumed(s: seq<Byte>)
      reads this, carry
    {
      Valid() && carryLen < RECORD_SIZE && s == Written() + carry[..carryLen]
    }

    constructor (n: nat)
      requires n > 0
      ensures Consumed([]) && chunkSize == n && fresh(carry) && chunks == []
    {
      chunkSize, carry, carryLen := n, new Byte[RECORD_SIZE], 0;
      chunks, current, writerOpen, chunkRecords, totalRecords := [], [], false, 0, 0;
    }

    method FinalizeCurrentChunk()
      modifies `chunks, `current, `writerOpen, `chunkRecords
      ensures !writerOpen && Written() == old(Written())
      ensures old(writerOpen) ==> chunks == old(chunks) + [old(current)] && current == [] && chunkRecords == 0
      ensures !old(writerOpen) ==> chunks == old(chunks) && current == old(current) && chunkRecords == old(chunkRecords)
    {
      if !writerOpen {
        return;
      }
      FlattenSnoc(chunks, current);
      chunks, current, writerOpen, chunkRecords := chunks + [current], [], false, 0;
    }

    /** One turn of the emit loop: as many records as the open chunk has room for. */
    method EmitSome(p: seq<Byte>, nrec: nat) returns (take: nat)
      requires Valid() && nrec > 0 && |p| >= nrec * RECORD_SIZE
      modifies `chunks, `current, `writerOpen, `chunkRecords, `totalRecords
      ensures Valid() && 0 < take <= nrec
      ensures Written() == old(Written()) + p[..take * RECORD_SIZE]
    {
      writerOpen := true;
      take := Min(nrec, chunkSize - chunkRecords);
      var nb := take * RECORD_SIZE;
      ConcatParts(Flatten(chunks), current, p[..nb]);
      current := current + p[..nb];
      chunkRecords, totalRecords := chunkRecords + take, totalRecords + take;
      if chunkRecords == chunkSize {
        FinalizeCurrentChunk();
      }
    }

    /** A run of whole records. */
    method EmitRecords(p: seq<Byte>, n: nat)
      requires Valid() && |p| == n * RECORD_SIZE
      modifies `chunks, `current, `writerOpen, `chunkRecords, `totalRecords
      ensures Valid() && Written() == old(Written()) + p
    {
      var off: nat, nrec: nat := 0, n;
      assert p[..0] == [];
      while nrec > 0
        invariant Valid() && off + nrec * RECORD_SIZE == |p|
        invariant Written() == old(Written()) + p[..off]
      {
        var take := EmitSome(p[off..], nrec);
        EmitStep(p, off, take * RECORD_SIZE);
        off, nrec := off + take * RECORD_SIZE, nrec - take;
      }
      assert p[..off] == p;
    }

    lemma EmitStep(p: seq<Byte>, off: nat, nb: nat)
      requires off + nb <= |p|
      ensures forall w: seq<Byte> :: w + p[..off] + p[off..][..nb] == w + p[..off + nb]
    {
      assert p[..off] + p[off..][..nb] == p[..off + nb];
    }

    /** Fill the carry buffer up to a whole record, if there is enough, and emit it. */
    method DrainCarry(data: seq<Byte>, ghost s: seq<Byte>) returns (off: nat)
      requires Consumed(s) && carryLen > 0
      modifies this, carry
      ensures off <= |data| && Consumed(s + data[..off])
      ensures carryLen > 0 ==> off == |data|
    {
      var need := RECORD_SIZE - carryLen;
      ghost var head, w := carry[..carryLen], Written();
      if |data| < need {
        carryLen := CopyInto(carry, carryLen, data);
        ConcatParts(w, head, data);
        assert data[..|data|] == data;
        return |data|;
      }
      var _ := CopyInto(carry, carryLen, data[..need]);
      ConcatParts(w, head, data[..need]);
      carryLen := 0;
      assert carry[..] == carry[..RECORD_SIZE];
      EmitRecords(carry[..], 1);
      assert Written() + [] == Written();
      off := need;
    }

    /** One freshly decompressed slice. */
    method ConsumeDecompressed(data: seq<Byte>, ghost s: seq<Byte>)
      requires Consumed(s)
      modifies this, carry
      ensures Consumed(s + data)
    {
      var off := 0;
      assert s + data[..0] == s;
      if carryLen > 0 {
        off := DrainCarry(data, s);
        if carryLen > 0 {
          assert data[..off] == data;
          return;
        }
      }
      var whole := (|data| - off) / RECORD_SIZE;
      var end := off + whole * RECORD_SIZE;
      SaveTail(data, off, end, whole, s);
    }

    /** The stream has ended: close the open file, if there is one; the carry is left over. */
    method Finish(ghost s: seq<Byte>) returns (files: seq<seq<Byte>>, leftOver: nat)
      requires Consumed(s)
      modifies `chunks, `current, `writerOpen, `chunkRecords
      ensures Cut(files, chunkSize, WholeRecords(s)) && leftOver == |s| % RECORD_SIZE
      ensures |files| == (|s| / RECORD_SIZE + chunkSize - 1) / chunkSize
    {
      assert |s| / RECORD_SIZE == totalRecords && Written() == WholeRecords(s);
      FinalizeCurrentChunk();
      files, leftOver := chunks, carryLen;
      CutCount(files, chunkSize, WholeRecords(s), |s| / RECORD_SIZE);
    }

    /** Emit the whole records of data[off..end] and carry the rest over. */
    method SaveTail(data: seq<Byte>, off: nat, end: nat, whole: nat, ghost s: seq<Byte>)
      requires off <= end <= |data| < end + RECORD_SIZE && end == off + whole * RECORD_SIZE
      requires Consumed(s + data[..off]) && carryLen == 0
      modifies this, carry
      ensures Consumed(s + data)
    {
      EmitWhole(data, off, end, whole, s);
      CarryTail(data, end, s);
    }

    method EmitWhole(data: seq<Byte>, off: nat, end: nat, whole: nat, ghost s: seq<Byte>)
      requires off <= end <= |data| && end == off + whole * RECORD_SIZE
      requires Consumed(s + data[..off]) && carryLen == 0
      modifies `chunks, `current, `writerOpen, `chunkRecords, `totalRecords
      ensures Valid() && Written() == s + data[..end]
    {
      WholeParts(s, data, off, end);
      assert carry[..0] == [] && Written() == s + data[..off];
      if whole > 0 {
        EmitRecords(data[off..end], whole);
      }
    }

    lemma WholeParts(s: seq<Byte>, data: seq<Byte>, off: nat, end: nat)
      requires off <= end <= |data|
      ensures s + data[..off] + data[off..end] == s + data[..end]
    {
      assert data[..off] + data[off..end] == data[..end];
    }

    method CarryTail(data: seq<Byte>, end: nat, ghost s: seq<Byte>)
      requires end <= |data| < end + RECORD_SIZE && carryLen == 0
      requires Valid() && Written() == s + data[..end]
      modifies `carryLen, carry
      ensures Consumed(s + data)
    {
      if end < |data| {
        carryLen := CopyInto(carry, 0, data[end..]);
      }
      WholeParts(s, data, end, |data|);
      assert data[end..|data|] == data[end..] && data[..|data|] == data;
    }
  }

  /** The whole program: however the stream is sliced, its chunks are the cut of its whole records, and the
      bytes left over are too few for a record. */
  method CutTrace(slices: seq<seq<Byte>>, n: nat) returns (chunks: seq<seq<Byte>>, leftOver: nat)
    requires n > 0
    ensures var s := Flatten(slices);
            && Cut(chunks, n, WholeRecords(s))
            && |chunks| == (|s| / RECORD_SIZE + n - 1) / n
            && leftOver == |s| % RECORD_SIZE
  {
    var c := new Splitter(n);
    assert Flatten(slices[..0]) == [];
    for i := 0 to |slices|
      invariant fresh(c) && fresh(c.carry) && c.chunkSize == n
      invariant c.Consumed(Flatten(slices[..i]))
    {
      FlattenTake(slices, i);
      c.ConsumeDecompressed(slices[i], Flatten(slices[..i]));
    }
    assert slices[..|slices|] == slices;
    chunks, leftOver := c.Finish(Flatten(slices));
  }

  lemma FlattenTake(slices: seq<seq<Byte>>, i: nat)
    requires i < |slices|
    ensures Flatten(slices[..i + 1]) == Flatten(slices[..i]) + slices[i]
  {
    assert slices[..i + 1] == slices[..i] + [slices[i]];
    FlattenSnoc(slices[..i], slices[i]);
  }

  /** Two slicings of one stream give the same chunks. */
  lemma SlicingIrrelevant(a: seq<seq<Byte>>, b: seq<seq<Byte>>, x: seq<seq<Byte>>, y: seq<seq<Byte>>, n: nat)
    requires Flatten(x) == Flatten(y)
    requires Cut(a, n, WholeRecords(Flatten(x))) && Cut(b, n, WholeRecords(Flatten(y)))
    ensures a == b
  {
    CutUnique(a, b, n, WholeRecords(Flatten(x)));
  }
}
