/** The buffered reader the converter and the filter share: zstd is the identity on bytes, delivered in
    slices of any size, empty ones included. */
module TraceReader {
  import opened Bytes
  import opened RawFormat

  class Reader {
    var slices: seq<seq<Byte>>  // what the decompressor will still produce
    var decompBuf: seq<Byte>
    var decompPos: nat

    ghost predicate Valid()
      reads this
    {
      decompPos <= |decompBuf|
    }

    /** The bytes not yet handed out. */
    ghost function Remaining(): (s: seq<Byte>)
      reads this
      requires Valid()
    {
      decompBuf[decompPos..] + Flatten(slices)
    }

    constructor (source: seq<seq<Byte>>)
      ensures Valid() && Remaining() == Flatten(source)
    {
      slices, decompBuf, decompPos := source, [], 0;
    }

    /** Loop until the decompressor yields at least one byte or the input is exhausted. */
    method Refill() returns (ok: bool)
      requires Valid() && decompPos == |decompBuf|
      modifies this
      ensures Valid() && Remaining() == old(Remaining())
      ensures if ok then decompPos < |decompBuf| else Remaining() == []
    {
      decompPos, decompBuf := 0, [];
      while decompBuf == []
        invariant Valid() && decompPos == 0 && Remaining() == old(Remaining())
        decreases |slices| + if decompBuf == [] then 1 else 0
      {
        if slices == [] {
          return false;
        }
        decompBuf, slices := slices[0], slices[1..];
      }
      ok := true;
    }

    /** Copy n bytes that are already decompressed. */
    method TakeBuffered(n: nat) returns (data: seq<Byte>)
      requires Valid() && n <= |decompBuf| - decompPos
      modifies this`decompPos
      ensures Valid() && |data| == n && old(Remaining()) == data + Remaining()
    {
      data := decompBuf[decompPos..decompPos + n];
      decompPos := decompPos + n;
    }

    /** Up to len bytes; fewer only when the stream is exhausted. */
    method Read(len: nat) returns (data: seq<Byte>)
      requires Valid()
      modifies this
      ensures Valid() && old(Remaining()) == data + Remaining()
      ensures |data| == len || (|data| < len && Remaining() == [])
    {
      data := [];
      var remaining: nat := len;
      while remaining > 0
        invariant Valid() && |data| + remaining == len && old(Remaining()) == data + Remaining()
      {
        if decompPos == |decompBuf| {
          var more := Refill();
          if !more {
            return;
          }
        }
        var part := TakeBuffered(Min(remaining, |decompBuf| - decompPos));
        data, remaining := data + part, remaining - |part|;
      }
    }

    method ReadExact(len: nat) returns (ok: bool, data: seq<Byte>)
      requires Valid()
      modifies this
      ensures Valid() && ok == (len <= |old(Remaining())|)
      ensures ok ==> data == old(Remaining())[..len] && Remaining() == old(Remaining())[len..]
    {
      data := Read(len);
      ok := |data| == len;
    }

    /** One memory operation. */
    method ReadMemOp(l: Layout) returns (r: ReadResult<MemOp>, raw: seq<Byte>)
      requires Valid()
      modifies this
      ensures Valid() && r == ReadOp(l, old(Remaining()))
      ensures r.Got? ==> |raw| == r.size && old(Remaining()) == raw + Remaining()
    {
      ghost var all := Remaining();
      var h := OpHeaderSize(l);
      var ok, head := ReadExact(h);
      if !ok {
        return Stopped(TruncatedOp), [];
      }
      assert head[..8] == all[..8] && (l.hasPa ==> head[8..16] == all[8..16]);
      var addr := ReadU64(head[..8]);
      var paddr: U64 := if l.hasPa then ReadU64(head[8..16]) else 0;
      var size, flags := head[h - 2], head[h - 1];
      if HasValue(flags) && !l.hasValues {
        return Stopped(CorruptOp), [];
      }
      if !HasValue(flags) {
        return Got(MemOp(addr, paddr, size, flags, []), h), head;
      }
      var v := Min(size, MAX_VALUE_SIZE);
      var value;
      ok, value := ReadExact(v);
      if !ok {
        return Stopped(TruncatedValue), [];
      }
      assert all[h..h + v] == value;
      r, raw := Got(MemOp(addr, paddr, size, flags, value), h + v), head + value;
    }

    /** The n memory operations after the instruction bytes. */
    method ReadMemOps(l: Layout, n: nat) returns (r: ReadResult<seq<MemOp>>, raw: seq<Byte>)
      requires Valid()
      modifies this
      ensures Valid() && r == ReadOps(l, n, old(Remaining()))
      ensures r.Got? ==> |raw| == r.size && old(Remaining()) == raw + Remaining()
    {
      ghost var body := Remaining();
      var ops: seq<MemOp> := [];
      raw := [];
      SoFarStart(l, n, body);
      while |ops| < n
        invariant Valid() && |ops| <= n
        invariant SoFar(l, n, body, ops, raw, Remaining())
      {
        ghost var rest := Remaining();
        var op, bytes := ReadMemOp(l);
        if op.Stopped? {
          return Stopped(op.why), [];
        }
        SoFarStep(l, n, body, ops, raw, rest, op.value, bytes, Remaining());
        raw, ops := raw + bytes, ops + [op.value];
      }
      assert ops + [] == ops;
      r := Got(ops, |raw|);
    }

    /** The fixed part of a record: header word, instruction pointer, instruction bytes. */
    method ReadHead() returns (why: Option<Stop>, h: nat, ip: seq<Byte>, insn: seq<Byte>, raw: seq<Byte>)
      requires Valid()
      modifies this
      ensures Valid()
      ensures match why
              case Some(w) => forall l :: ReadRecord(l, old(Remaining())) == Stopped(w)
              case None =>
                && |ip| == WORD && |insn| == HdrInsnSize(h) != 0 && |raw| == 12 + |insn|
                && old(Remaining()) == raw + Remaining()
                && FromLe(old(Remaining())[..4]) == h
                && raw[4..12] == ip && raw[12..] == insn
    {
      h, ip, insn, raw := 0, [], [], [];
      var ok, head := ReadExact(4);
      if !ok {
        why := Some(End);
        return;
      }
      h := FromLe(head);
      if HdrInsnSize(h) == 0 {
        why := Some(BadSize);
        return;
      }
      ok, ip := ReadExact(8);
      if !ok {
        why := Some(TruncatedIp);
        return;
      }
      ok, insn := ReadExact(HdrInsnSize(h));
      if !ok {
        why := Some(TruncatedInsn);
        return;
      }
      why, raw := None, head + ip + insn;
    }

    /** One whole record, field by field, with the bytes it was read from. However the stream is sliced,
        this is the functional parser applied to what is left of it. */
    method ReadFrame(l: Layout) returns (r: ReadResult<Frame>)
      requires Valid()
      modifies this
      ensures Valid()
      ensures match ReadRecord(l, old(Remaining()))
              case Stopped(why) => r == Stopped(why)
              case Got(rec, n) => r == Got(Frame(old(Remaining())[..n], rec), n)
                                  && Remaining() == old(Remaining())[n..]
    {
      ghost var all := Remaining();
      var why, h, ip, insn, head := ReadHead();
      if why.Some? {
        return Stopped(why.value);
      }
      var isz := |insn|;
      assert all[4..12] == ip && all[12..12 + isz] == insn && all[12 + isz..] == Remaining();
      var ops, body := ReadMemOps(l, HdrNumMemOps(h));
      if ops.Stopped? {
        return Stopped(ops.why);
      }
      var raw := head + body;
      assert all == raw + Remaining();
      r := Got(Frame(raw, RawRecord(HdrVcpu(h), HdrPrivilege(h), ReadU64(ip), insn, ops.value)), |raw|);
    }

    /** The frames fs have been read of a stream that scans to sc; what is left scans to the rest. */
    ghost predicate At(l: Layout, sc: Scanned, fs: seq<Frame>)
      reads this
    {
      Valid() && fs <= sc.frames && Scan(l, Remaining()) == Scanned(sc.frames[|fs|..], sc.stop)
    }

    /** The next frame, or the reason there is none. */
    method NextFrame(l: Layout, ghost sc: Scanned, ghost fs: seq<Frame>) returns (f: ReadResult<Frame>)
      requires At(l, sc, fs)
      modifies this
      ensures f.Stopped? ==> sc == Scanned(fs, f.why)
      ensures f.Got? ==> At(l, sc, fs + [f.value])
    {
      ghost var todo := sc.frames[|fs|..];
      f := ReadFrame(l);
      assert f.Got? ==> f.value == todo[0] && todo[1..] == sc.frames[|fs| + 1..];
    }
  }

  /** The n operations of body, after the first |ops| of them were read off its front. */
  ghost predicate SoFar(l: Layout, n: nat, body: seq<Byte>, ops: seq<MemOp>, raw: seq<Byte>, rest: seq<Byte>)
    requires |ops| <= n
  {
    && body == raw + rest
    && ReadOps(l, n, body) == match ReadOps(l, n - |ops|, rest) {
                                case Stopped(why) => Stopped(why)
                                case Got(more, j) => Got(ops + more, |raw| + j)
                              }
  }

  lemma SoFarStart(l: Layout, n: nat, body: seq<Byte>)
    ensures SoFar(l, n, body, [], [], body)
  {
    var r := ReadOps(l, n, body);
    assert [] + body == body && (r.Got? ==> [] + r.value == r.value);
  }

  lemma SoFarStep(l: Layout, n: nat, body: seq<Byte>, ops: seq<MemOp>, raw: seq<Byte>, rest: seq<Byte>,
                  op: MemOp, bytes: seq<Byte>, left: seq<Byte>)
    requires |ops| < n && SoFar(l, n, body, ops, raw, rest)
    requires ReadOp(l, rest) == Got(op, |bytes|) && rest == bytes + left
    ensures SoFar(l, n, body, ops + [op], raw + bytes, left)
  {
    ConcatParts(raw, bytes, left);
    var r := ReadOps(l, n - |ops| - 1, left);
    assert r.Got? ==> ops + ([op] + r.value) == (ops + [op]) + r.value;
  }
}
