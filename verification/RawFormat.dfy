/** The raw trace format: what the plugin writes and what the converter and the filter read back. */
module RawFormat {
  import opened Bytes

  const TRACE_FORMAT_MAGIC: nat := 0x46545343
  const TRACE_FORMAT_VER: nat := 3
  const MAX_INSN_SIZE: nat := 15
  const MAX_MEM_OPS: nat := 7
  const MAX_VALUE_SIZE: nat := 64
  const VALUE_API_CAP: nat := 16
  const FILE_HEADER_SIZE: nat := 16
  const MAX_RECORD_SIZE: nat := 4 + 8 + MAX_INSN_SIZE + MAX_MEM_OPS * (8 + 8 + 1 + 1 + MAX_VALUE_SIZE)

  /** One memory access as stored. `value` is empty unless flag bit 1 is set. */
  datatype MemOp = MemOp(addr: U64, paddr: U64, size: Byte, flags: Byte, value: seq<Byte>)

  datatype RawRecord = RawRecord(vcpu: nat, privilege: nat, ip: U64, insn: seq<Byte>, ops: seq<MemOp>)

  // The flag bits: 0 write, 1 has_value, 2 pa_valid, 3 pa_is_io.

  predicate IsWrite(flags: Byte) { flags % 2 == 1 }

  predicate HasValue(flags: Byte) { flags / 2 % 2 == 1 }

  predicate PaValid(flags: Byte) { flags / 4 % 2 == 1 }

  predicate PaIsIo(flags: Byte) { flags / 8 % 2 == 1 }

  /** What the file-header flags say every memory operation carries. */
  datatype Layout = Layout(hasPa: bool, hasValues: bool)

  ghost predicate ValidOp(l: Layout, op: MemOp)
  {
    && (!l.hasPa ==> op.paddr == 0)
    && (HasValue(op.flags) ==> l.hasValues && |op.value| == Min(op.size, MAX_VALUE_SIZE))
    && (!HasValue(op.flags) ==> op.value == [])
  }

  ghost predicate ValidRecord(l: Layout, r: RawRecord)
  {
    && r.vcpu < 16 && r.privilege < 2
    && 1 <= |r.insn| <= MAX_INSN_SIZE
    && |r.ops| <= MAX_MEM_OPS
    && forall op :: op in r.ops ==> ValidOp(l, op)
  }

  // ---- writing ----

  /** Bit fields [3:0], [4], [8:5], [11:9]; they do not overlap, so the OR of the shifts is their sum. */
  function EncodeHeader(vcpu: nat, privilege: nat, insnSize: nat, numMemOps: nat): (h: nat)
    ensures h < 0x1000
  {
    vcpu % 16 + privilege % 2 * 16 + insnSize % 16 * 32 + numMemOps % 8 * 512
  }

  function OpHeader(l: Layout, op: MemOp): (s: seq<Byte>)
    ensures |s| == OpHeaderSize(l)
  {
    ToLe(WORD, op.addr) + (if l.hasPa then ToLe(WORD, op.paddr) else []) + [op.size, op.flags]
  }

  function OpHeaderSize(l: Layout): nat
  {
    if l.hasPa then 18 else 10
  }

  function SerializeOp(l: Layout, op: MemOp): seq<Byte>
  {
    OpHeader(l, op) + (if HasValue(op.flags) then op.value else [])
  }

  function SerializeOps(l: Layout, ops: seq<MemOp>): seq<Byte>
  {
    if ops == [] then [] else SerializeOp(l, ops[0]) + SerializeOps(l, ops[1..])
  }

  function RecordHead(r: RawRecord): (s: seq<Byte>)
    ensures |s| == 12 + |r.insn|
  {
    ToLe(HALF, EncodeHeader(r.vcpu, r.privilege, |r.insn|, |r.ops|)) + ToLe(WORD, r.ip) + r.insn
  }

  function Serialize(l: Layout, r: RawRecord): seq<Byte>
  {
    RecordHead(r) + SerializeOps(l, r.ops)
  }

  function SerializeAll(l: Layout, rs: seq<RawRecord>): seq<Byte>
  {
    if rs == [] then [] else Serialize(l, rs[0]) + SerializeAll(l, rs[1..])
  }

  lemma {:induction false} SerializeOpsSnoc(l: Layout, ops: seq<MemOp>, op: MemOp)
    ensures SerializeOps(l, ops + [op]) == SerializeOps(l, ops) + SerializeOp(l, op)
  {
    if ops == [] {
      assert ops + [op] == [op];
      assert SerializeOps(l, [op]) == SerializeOp(l, op) + SerializeOps(l, []);
    } else {
      assert (ops + [op])[1..] == ops[1..] + [op];
      SerializeOpsSnoc(l, ops[1..], op);
    }
  }

  lemma {:induction false} SerializeAllAppend(l: Layout, a: seq<RawRecord>, b: seq<RawRecord>)
    ensures SerializeAll(l, a + b) == SerializeAll(l, a) + SerializeAll(l, b)
  {
    if a == [] {
      assert a + b == b;
    } else {
      assert (a + b)[1..] == a[1..] + b;
      SerializeAllAppend(l, a[1..], b);
    }
  }

  lemma {:induction false} OpsSizeBound(l: Layout, ops: seq<MemOp>)
    requires forall op :: op in ops ==> ValidOp(l, op)
    ensures |SerializeOps(l, ops)| <= |ops| * 82
  {
    if ops == [] {
    } else {
      assert ops[0] in ops;
      OpsSizeBound(l, ops[1..]);
    }
  }

  /** The worst-case record the plugin's static assertion budgets for. */
  lemma RecordSizeBound(l: Layout, r: RawRecord)
    requires ValidRecord(l, r)
    ensures |Serialize(l, r)| <= MAX_RECORD_SIZE == 601
  {
    OpsSizeBound(l, r.ops);
  }

  /** The 16 bytes at the start of every chunk. */
  function FileHeader(vcpu: nat, arch: Byte, l: Layout): (s: seq<Byte>)
    ensures |s| == FILE_HEADER_SIZE
  {
    ToLe(HALF, TRACE_FORMAT_MAGIC) + ToLe(HALF, TRACE_FORMAT_VER) + ToLe(HALF, vcpu)
    + [arch, (if l.hasPa then 1 else 0) + (if l.hasValues then 2 else 0),
       if l.hasValues then VALUE_API_CAP else 0, 0]
  }

  // ---- reading ----

  /** Why reading stopped. After the last three the converter drops the record it was still holding. */
  datatype Stop = End | BadSize | TruncatedIp | TruncatedInsn | TruncatedOp | CorruptOp | TruncatedValue

  datatype ReadResult<+T> = Got(value: T, size: nat) | Stopped(why: Stop)

  function ReadOp(l: Layout, s: seq<Byte>): (r: ReadResult<MemOp>)
    ensures r.Got? ==> r.size <= |s|
    ensures r.Stopped? ==> r.why in {TruncatedOp, CorruptOp, TruncatedValue}
  {
    var h := OpHeaderSize(l);
    if |s| < h then Stopped(TruncatedOp) else
    var addr := ReadU64(s[..8]);
    var paddr: U64 := if l.hasPa then ReadU64(s[8..16]) else 0;
    var size, flags := s[h - 2], s[h - 1];
    if HasValue(flags) && !l.hasValues then Stopped(CorruptOp)
    else if !HasValue(flags) then Got(MemOp(addr, paddr, size, flags, []), h)
    else
      var v := Min(size, MAX_VALUE_SIZE);
      if |s| < h + v then Stopped(TruncatedValue)
      else Got(MemOp(addr, paddr, size, flags, s[h..h + v]), h + v)
  }

  function ReadOps(l: Layout, n: nat, s: seq<Byte>): (r: ReadResult<seq<MemOp>>)
    ensures r.Got? ==> r.size <= |s| && |r.value| == n
    ensures r.Stopped? ==> r.why in {TruncatedOp, CorruptOp, TruncatedValue}
  {
    if n == 0 then Got([], 0) else
    match ReadOp(l, s)
    case Stopped(why) => Stopped(why)
    case Got(op, k) =>
      match ReadOps(l, n - 1, s[k..])
      case Stopped(why) => Stopped(why)
      case Got(ops, m) => Got([op] + ops, k + m)
  }

  // The header decoders.

  function HdrVcpu(h: nat): nat { h % 16 }

  function HdrPrivilege(h: nat): nat { h / 16 % 2 }

  function HdrInsnSize(h: nat): nat { h / 32 % 16 }

  function HdrNumMemOps(h: nat): nat { h / 512 % 8 }

  function ReadRecord(l: Layout, s: seq<Byte>): (r: ReadResult<RawRecord>)
    ensures r.Got? ==> 13 <= r.size <= |s| && 1 <= |r.value.insn| <= MAX_INSN_SIZE
  {
    if |s| < 4 then Stopped(End) else
    var h := FromLe(s[..4]);
    var n := HdrInsnSize(h);
    if n == 0 then Stopped(BadSize)
    else if |s| < 12 then Stopped(TruncatedIp)
    else if |s| < 12 + n then Stopped(TruncatedInsn)
    else
      match ReadOps(l, HdrNumMemOps(h), s[12 + n..])
      case Stopped(why) => Stopped(why)
      case Got(ops, k) =>
        Got(RawRecord(HdrVcpu(h), HdrPrivilege(h), ReadU64(s[4..12]), s[12..12 + n], ops), 12 + n + k)
  }

  /** A record together with the exact bytes it was read from. */
  datatype Frame = Frame(raw: seq<Byte>, rec: RawRecord)

  datatype Scanned = Scanned(frames: seq<Frame>, stop: Stop)

  /** Every record of a stream, and why reading stopped. */
  function Scan(l: Layout, s: seq<Byte>): Scanned
    decreases |s|
  {
    match ReadRecord(l, s)
    case Stopped(why) => Scanned([], why)
    case Got(rec, n) =>
      var rest := Scan(l, s[n..]);
      Scanned([Frame(s[..n], rec)] + rest.frames, rest.stop)
  }

  function Records(fs: seq<Frame>): (rs: seq<RawRecord>)
    ensures |rs| == |fs| && forall i :: 0 <= i < |fs| ==> rs[i] == fs[i].rec
  {
    seq(|fs|, i requires 0 <= i < |fs| => fs[i].rec)
  }

  datatype HeaderError = ShortHeader | BadMagic | BadVersion | BadArch

  datatype Opened =
    | Opened(version: nat, vcpu: nat, arch: Byte, layout: Layout)
    | Refused(error: HeaderError)

  function ReadHeader(s: seq<Byte>): (r: Opened)
    ensures r.Opened? ==> |s| >= FILE_HEADER_SIZE
  {
    if |s| < FILE_HEADER_SIZE then Refused(ShortHeader) else
    var version := FromLe(s[4..8]);
    if FromLe(s[..4]) != TRACE_FORMAT_MAGIC then Refused(BadMagic)
    else if version != 2 && version != 3 then Refused(BadVersion)
    else if version == 2 then Opened(2, FromLe(s[8..12]), 0, Layout(false, true))
    else if s[12] > 1 then Refused(BadArch)
    else Opened(3, FromLe(s[8..12]), s[12], Layout(s[13] % 2 == 1, s[13] / 2 % 2 == 1))
  }

  // ---- round trips ----

  lemma OpRoundTrip(l: Layout, op: MemOp, rest: seq<Byte>)
    requires ValidOp(l, op)
    ensures ReadOp(l, SerializeOp(l, op) + rest) == Got(op, |SerializeOp(l, op)|)
  {
    var s := SerializeOp(l, op) + rest;
    var h := OpHeaderSize(l);
    assert s[..8] == ToLe(WORD, op.addr);
    WordRoundTrip(op.addr);
    if l.hasPa {
      assert s[8..16] == ToLe(WORD, op.paddr);
      WordRoundTrip(op.paddr);
    }
    assert s[h - 2] == op.size && s[h - 1] == op.flags;
    if HasValue(op.flags) {
      assert s[h..h + |op.value|] == op.value;
    }
  }

  lemma {:induction false} OpsRoundTrip(l: Layout, ops: seq<MemOp>, rest: seq<Byte>)
    requires forall op :: op in ops ==> ValidOp(l, op)
    ensures ReadOps(l, |ops|, SerializeOps(l, ops) + rest) == Got(ops, |SerializeOps(l, ops)|)
  {
    if ops == [] {
    } else {
      var one, more := SerializeOp(l, ops[0]), SerializeOps(l, ops[1..]);
      assert SerializeOps(l, ops) + rest == one + (more + rest);
      OpRoundTrip(l, ops[0], more + rest);
      assert (one + (more + rest))[|one|..] == more + rest;
      OpsRoundTrip(l, ops[1..], rest);
      assert [ops[0]] + ops[1..] == ops;
    }
  }

  /** The four fields come back out of the packed word, each one unaffected by the others. */
  lemma FieldsRoundTrip(h: nat, a: nat, b: nat, c: nat, d: nat)
    requires a < 16 && b < 2 && c < 16 && d < 8
    requires h == a + 16 * b + 32 * c + 512 * d
    ensures HdrVcpu(h) == a && HdrPrivilege(h) == b && HdrInsnSize(h) == c && HdrNumMemOps(h) == d
  {
    assert h / 16 == b + 2 * c + 32 * d;
    assert h / 32 == c + 16 * d;
    assert h / 512 == d;
  }

  lemma HeaderFields(vcpu: nat, privilege: nat, insnSize: nat, numMemOps: nat)
    requires vcpu < 16 && privilege < 2 && insnSize < 16 && numMemOps < 8
    ensures var h := EncodeHeader(vcpu, privilege, insnSize, numMemOps);
            HdrVcpu(h) == vcpu && HdrPrivilege(h) == privilege
            && HdrInsnSize(h) == insnSize && HdrNumMemOps(h) == numMemOps
  {
    var h := EncodeHeader(vcpu, privilege, insnSize, numMemOps);
    assert h == vcpu + 16 * privilege + 32 * insnSize + 512 * numMemOps by {
      assert vcpu % 16 == vcpu && privilege % 2 == privilege && insnSize % 16 == insnSize && numMemOps % 8 == numMemOps;
    }
    FieldsRoundTrip(h, vcpu, privilege, insnSize, numMemOps);
  }

  lemma HeaderWordRoundTrip(h: nat)
    requires h < 0x1000
    ensures FromLe(ToLe(HALF, h)) == h
  {
    WordBounds();
    LeRoundTrip(HALF, h);
  }

  /** Where each part of a serialized record sits. */
  lemma RecordParts(l: Layout, r: RawRecord, rest: seq<Byte>)
    ensures var s, n := Serialize(l, r) + rest, |r.insn|;
            && |s| >= 12 + n
            && s[..4] == ToLe(HALF, EncodeHeader(r.vcpu, r.privilege, n, |r.ops|))
            && s[4..12] == ToLe(WORD, r.ip)
            && s[12..12 + n] == r.insn
            && s[12 + n..] == SerializeOps(l, r.ops) + rest
  {
  }

  lemma RecordRoundTrip(l: Layout, r: RawRecord, rest: seq<Byte>)
    requires ValidRecord(l, r)
    ensures ReadRecord(l, Serialize(l, r) + rest) == Got(r, |Serialize(l, r)|)
  {
    var n := |r.insn|;
    var h := EncodeHeader(r.vcpu, r.privilege, n, |r.ops|);
    RecordParts(l, r, rest);
    HeaderWordRoundTrip(h);
    HeaderFields(r.vcpu, r.privilege, n, |r.ops|);
    WordRoundTrip(r.ip);
    OpsRoundTrip(l, r.ops, rest);
  }

  function Framed(l: Layout, rs: seq<RawRecord>): (fs: seq<Frame>)
    ensures |fs| == |rs|
  {
    seq(|rs|, i requires 0 <= i < |rs| => Frame(Serialize(l, rs[i]), rs[i]))
  }

  /** Reading back any valid record sequence yields it unchanged and stops at the end of the stream:
      no error path, the corrupt-value one included, is taken. */
  lemma {:induction false} ScanRoundTrip(l: Layout, rs: seq<RawRecord>)
    requires forall r :: r in rs ==> ValidRecord(l, r)
    ensures Scan(l, SerializeAll(l, rs)) == Scanned(Framed(l, rs), End)
  {
    if rs == [] {
    } else {
      var one, more := Serialize(l, rs[0]), SerializeAll(l, rs[1..]);
      RecordRoundTrip(l, rs[0], more);
      assert (one + more)[|one|..] == more && (one + more)[..|one|] == one;
      ScanRoundTrip(l, rs[1..]);
      assert Framed(l, rs) == [Frame(one, rs[0])] + Framed(l, rs[1..]);
    }
  }

  lemma FileHeaderRoundTrip(vcpu: nat, arch: Byte, l: Layout, rest: seq<Byte>)
    requires vcpu < 16 && arch < 2
    ensures ReadHeader(FileHeader(vcpu, arch, l) + rest) == Opened(3, vcpu, arch, l)
  {
    var s := FileHeader(vcpu, arch, l) + rest;
    WordBounds();
    assert s[..4] == ToLe(HALF, TRACE_FORMAT_MAGIC);
    LeRoundTrip(HALF, TRACE_FORMAT_MAGIC);
    assert s[4..8] == ToLe(HALF, TRACE_FORMAT_VER);
    LeRoundTrip(HALF, TRACE_FORMAT_VER);
    assert s[8..12] == ToLe(HALF, vcpu);
    LeRoundTrip(HALF, vcpu);
  }
}
