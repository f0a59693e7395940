/** raw2champsim: the one-record lookahead, its final-record rule, and what becomes of them when a capture
    is cut short or converted chunk by chunk. */
module Convert {
  import opened Bytes
  import opened ChampSim
  import opened RawFormat
  import opened TraceReader

  // ---- one record ----

  /** What an instruction decoder reports: code 0 is no branch, else the branch type plus one. */
  datatype DecodedRegs = DecodedRegs(ok: bool, code: nat, instrType: Byte, src: seq<Byte>, dst: seq<Byte>)

  type Decoded = d: DecodedRegs | d.code <= 7 && |d.src| <= NUM_INSTR_SOURCES && |d.dst| <= NUM_INSTR_DESTINATIONS
    witness DecodedRegs(false, 0, 0, [], [])

  /** The decoder of each architecture byte. */
  type Decoder = (Byte, seq<Byte>) -> Decoded

  function SlotOf(op: MemOp): Slot
  {
    Slot(op.addr, if PaValid(op.flags) && !PaIsIo(op.flags) then op.paddr else 0, op.size,
         Fit(op.value, MAX_MEM_VALUE_SIZE))
  }

  /** The operations that write (or that read), in order. */
  function Side(ops: seq<MemOp>, write: bool): seq<MemOp>
  {
    if ops == [] then []
    else Side(ops[..|ops| - 1], write)
         + if IsWrite(ops[|ops| - 1].flags) == write then [ops[|ops| - 1]] else []
  }

  /** n slots, the first of them filled by ops. */
  function Slots(ops: seq<MemOp>, n: nat): (s: seq<Slot>)
    ensures |s| == n
  {
    seq(n, i requires 0 <= i < n => if i < |ops| then SlotOf(ops[i]) else NO_SLOT)
  }

  function Excess(ops: seq<MemOp>, n: nat): nat
  {
    if |ops| > n then |ops| - n else 0
  }

  /** The record before its direction is known. */
  function Base(decode: Decoder, arch: Byte, r: RawRecord): (o: OutRecord)
    ensures o.isBranch <==> o.branchType != NOT_BRANCH
  {
    var d := decode(arch, r.insn);
    OutRecord(r.ip, d.ok && d.code > 0, false,
              Fit(if d.ok then d.dst else [], NUM_INSTR_DESTINATIONS),
              Fit(if d.ok then d.src else [], NUM_INSTR_SOURCES),
              Slots(Side(r.ops, true), NUM_INSTR_DESTINATIONS), Slots(Side(r.ops, false), NUM_INSTR_SOURCES),
              r.privilege, if d.ok then d.instrType else INSTR_TYPE_INT,
              if d.ok && d.code > 0 then d.code - 1 else NOT_BRANCH,
              EXPLICIT_BRANCH_TYPE + FLAGS_REGISTER, TRACER_ID_QEMU)
  }

  // ---- what the whole file should become ----

  /** Record i is taken: its type is a known-taken class, or it is a branch whose next instruction is not
      its fall-through, modulo 2^64. */
  predicate Taken(decode: Decoder, arch: Byte, rs: seq<RawRecord>, i: nat)
    requires i < |rs|
  {
    var o := Base(decode, arch, rs[i]);
    o.isBranch
    && (KnownTaken(o.branchType)
        || (i + 1 < |rs| && rs[i + 1].ip != (rs[i].ip + |rs[i].insn|) % U64_SPAN))
  }

  function Directed(decode: Decoder, arch: Byte, rs: seq<RawRecord>, i: nat): OutRecord
    requires i < |rs|
  {
    Base(decode, arch, rs[i]).(taken := Taken(decode, arch, rs, i))
  }

  function FirstDirected(decode: Decoder, arch: Byte, rs: seq<RawRecord>, n: nat): (s: seq<OutRecord>)
    requires n <= |rs|
    ensures |s| == n
  {
    seq(n, i requires 0 <= i < n => Directed(decode, arch, rs, i))
  }

  /** The stops that leave without writing the record still held. */
  predicate Aborts(why: Stop)
  {
    why == TruncatedOp || why == CorruptOp || why == TruncatedValue
  }

  /** How many records are written: all, or all but a last one that is lost or has no direction. */
  function Kept(decode: Decoder, arch: Byte, rs: seq<RawRecord>, why: Stop): (n: nat)
    ensures n <= |rs| <= n + 1
  {
    if rs == [] then 0
    else if Aborts(why) || !Decidable(Base(decode, arch, rs[|rs| - 1])) then |rs| - 1
    else |rs|
  }

  function Output(decode: Decoder, arch: Byte, rs: seq<RawRecord>, why: Stop): seq<OutRecord>
  {
    FirstDirected(decode, arch, rs, Kept(decode, arch, rs, why))
  }

  /** What -n k lets the converter see; 0 is no limit. */
  function Limited(sc: Scanned, k: nat): Scanned
  {
    if 0 < k <= |sc.frames| then Scanned(sc.frames[..k], End) else sc
  }

  datatype Conversion =
    | Rejected(error: HeaderError)
    | Converted(out: seq<OutRecord>, total: nat, failed: bool)

  function ConvertedFrom(decode: Decoder, arch: Byte, sc: Scanned): Conversion
  {
    Converted(Output(decode, arch, Records(sc.frames), sc.stop), |sc.frames|, sc.stop != End)
  }

  function ConversionOf(decode: Decoder, bytes: seq<Byte>, maxInsns: nat): Conversion
  {
    match ReadHeader(bytes)
    case Refused(e) => Rejected(e)
    case Opened(_, _, arch, l) => ConvertedFrom(decode, arch, Limited(Scan(l, bytes[FILE_HEADER_SIZE..]), maxInsns))
  }

  // ---- the program ----

  /** n slots and the next free index, after the operations of one side so far. */
  ghost predicate Filled(slots: seq<Slot>, idx: nat, ops: seq<MemOp>, n: nat)
  {
    slots == Slots(ops, n) && idx == Min(|ops|, n)
  }

  /** One more operation of that side: into the next slot, or counted as overflow. */
  method Place(slots: seq<Slot>, idx: nat, n: nat, op: MemOp, ghost ops: seq<MemOp>)
    returns (slots': seq<Slot>, idx': nat, over: nat)
    requires Filled(slots, idx, ops, n)
    ensures Filled(slots', idx', ops + [op], n)
    ensures over == Excess(ops + [op], n) - Excess(ops, n)
  {
    if idx < n {
      slots', idx', over := slots[idx := SlotOf(op)], idx + 1, 0;
      assert slots' == Slots(ops + [op], n);
    } else {
      slots', idx', over := slots, idx, 1;
      assert slots' == Slots(ops + [op], n);
    }
  }

  /** Memory operations into source and destination slots, counting those that do not fit. */
  method MapMemOps(ops: seq<MemOp>) returns (src: seq<Slot>, dst: seq<Slot>, overflow: nat)
    ensures src == Slots(Side(ops, false), NUM_INSTR_SOURCES)
    ensures dst == Slots(Side(ops, true), NUM_INSTR_DESTINATIONS)
    ensures overflow == Excess(Side(ops, false), NUM_INSTR_SOURCES) + Excess(Side(ops, true), NUM_INSTR_DESTINATIONS)
  {
    var n, k := NUM_INSTR_SOURCES, NUM_INSTR_DESTINATIONS;
    src, dst, overflow := seq(n, _ => NO_SLOT), seq(k, _ => NO_SLOT), 0;
    var srcIdx, dstIdx, over := 0, 0, 0;
    for m := 0 to |ops|
      invariant Filled(src, srcIdx, Side(ops[..m], false), n)
      invariant Filled(dst, dstIdx, Side(ops[..m], true), k)
      invariant overflow == Excess(Side(ops[..m], false), n) + Excess(Side(ops[..m], true), k)
    {
      ghost var loads, stores := Side(ops[..m], false), Side(ops[..m], true);
      SideSnoc(ops, m);
      if IsWrite(ops[m].flags) {
        dst, dstIdx, over := Place(dst, dstIdx, k, ops[m], stores);
        assert loads + [] == loads;
      } else {
        src, srcIdx, over := Place(src, srcIdx, n, ops[m], loads);
        assert stores + [] == stores;
      }
      overflow := overflow + over;
    }
    assert ops[..|ops|] == ops;
  }

  lemma SideSnoc(ops: seq<MemOp>, m: nat)
    requires m < |ops|
    ensures Side(ops[..m + 1], true) == Side(ops[..m], true) + if IsWrite(ops[m].flags) then [ops[m]] else []
    ensures Side(ops[..m + 1], false) == Side(ops[..m], false) + if IsWrite(ops[m].flags) then [] else [ops[m]]
  {
    assert ops[..m + 1][..m] == ops[..m];
  }

  method BuildRecord(decode: Decoder, arch: Byte, r: RawRecord) returns (rec: OutRecord)
    ensures rec == Base(decode, arch, r)
  {
    var d := decode(arch, r.insn);
    var src, dst, _ := MapMemOps(r.ops);
    rec := OutRecord(r.ip, false, false, Fit([], NUM_INSTR_DESTINATIONS), Fit([], NUM_INSTR_SOURCES), dst, src,
                     r.privilege, INSTR_TYPE_INT, NOT_BRANCH, EXPLICIT_BRANCH_TYPE + FLAGS_REGISTER, TRACER_ID_QEMU);
    if d.ok {
      rec := rec.(isBranch := d.code > 0, instrType := d.instrType,
                  dstRegs := Fit(d.dst, NUM_INSTR_DESTINATIONS), srcRegs := Fit(d.src, NUM_INSTR_SOURCES));
      if d.code > 0 {
        rec := rec.(branchType := d.code - 1);
      }
    }
  }

  /** The record still held while its successor is read. */
  datatype Held = Held(rec: OutRecord, ip: U64, insnSize: nat)

  /** Where the loop stands after the records rs. */
  ghost predicate Holding(decode: Decoder, arch: Byte, rs: seq<RawRecord>, out: seq<OutRecord>, prev: Option<Held>)
  {
    && (rs == [] ==> prev == None && out == [])
    && (rs != [] ==>
          var r := rs[|rs| - 1];
          && prev == Some(Held(Base(decode, arch, r), r.ip, |r.insn|))
          && out == FirstDirected(decode, arch, rs, |rs| - 1))
  }

  /** The next record decides the direction of the one held. */
  lemma HoldingStep(decode: Decoder, arch: Byte, rs: seq<RawRecord>, r: RawRecord)
    requires rs != []
    ensures FirstDirected(decode, arch, rs + [r], |rs|)
            == FirstDirected(decode, arch, rs, |rs| - 1) + [Directed(decode, arch, rs + [r], |rs| - 1)]
  {
  }

  /** The record held back gets the direction the whole trace gives it, now that its successor is read. */
  method Settle(ghost decode: Decoder, ghost arch: Byte, ghost rs: seq<RawRecord>, ghost written: seq<OutRecord>,
                prev: Held, next: RawRecord) returns (rec: OutRecord)
    requires Holding(decode, arch, rs, written, Some(prev))
    ensures rs != [] && rec == Directed(decode, arch, rs + [next], |rs| - 1)
  {
    rec := prev.rec;
    if rec.isBranch {
      rec := rec.(taken := if KnownTaken(rec.branchType) then true
                           else next.ip != (prev.ip + prev.insnSize) % U64_SPAN);
    }
  }

  /** The final record has no successor: written if its direction is known, dropped if not. */
  method FinalRecord(ghost decode: Decoder, ghost arch: Byte, ghost rs: seq<RawRecord>, ghost why: Stop,
                     written: seq<OutRecord>, prev: Option<Held>) returns (out: seq<OutRecord>)
    requires Holding(decode, arch, rs, written, prev) && !Aborts(why)
    ensures out == Output(decode, arch, rs, why)
  {
    out := written;
    if prev.Some? {
      var rec, dropFinal := prev.value.rec, false;
      if rec.isBranch {
        if KnownTaken(rec.branchType) {
          rec := rec.(taken := true);
        } else {
          dropFinal := true;
        }
      }
      if !dropFinal {
        out := out + [rec];
      }
    }
  }

  /** A whole record was read: write the one held, now that its successor is known, and hold this one. */
  method Accept(decode: Decoder, arch: Byte, ghost rs: seq<RawRecord>, rec: RawRecord,
                written: seq<OutRecord>, held: Option<Held>) returns (out: seq<OutRecord>, prev: Option<Held>)
    requires Holding(decode, arch, rs, written, held)
    ensures Holding(decode, arch, rs + [rec], out, prev)
  {
    out := written;
    if held.Some? {
      HoldingStep(decode, arch, rs, rec);
      var settled := Settle(decode, arch, rs, written, held.value, rec);
      out := out + [settled];
    }
    var built := BuildRecord(decode, arch, rec);
    prev := Some(Held(built, rec.ip, |rec.insn|));
  }

  /** Leaving the loop: some errors skip the final record, the others do not. */
  method Leave(ghost decode: Decoder, ghost arch: Byte, ghost rs: seq<RawRecord>, why: Stop,
               written: seq<OutRecord>, prev: Option<Held>) returns (out: seq<OutRecord>)
    requires Holding(decode, arch, rs, written, prev)
    ensures out == Output(decode, arch, rs, why)
  {
    out := written;
    if !Aborts(why) {
      out := FinalRecord(decode, arch, rs, why, written, prev);
    }
  }

  /** The conversion loop after the file header. */
  method ConvertStream(decode: Decoder, arch: Byte, l: Layout, maxInsns: nat, reader: Reader)
    returns (r: Conversion)
    requires reader.Valid()
    modifies reader
    ensures r == ConvertedFrom(decode, arch, Limited(Scan(l, old(reader.Remaining())), maxInsns))
  {
    ghost var sc := Scan(l, reader.Remaining());
    ghost var fs: seq<Frame> := [];
    var out: seq<OutRecord>, prev: Option<Held>, total, why := [], None, 0, End;
    while maxInsns == 0 || total < maxInsns
      invariant reader.At(l, sc, fs) && total == |fs|
      invariant (maxInsns > 0 ==> total <= maxInsns) && why == End
      invariant Holding(decode, arch, Records(fs), out, prev)
      decreases |sc.frames| - |fs|
    {
      var f := reader.NextFrame(l, sc, fs);
      if f.Stopped? {
        why := f.why;
        break;
      }
      RecordsSnoc(fs, f.value);
      out, prev := Accept(decode, arch, Records(fs), f.value.rec, out, prev);
      fs, total := fs + [f.value], total + 1;
    }
    assert Limited(sc, maxInsns) == Scanned(fs, why);
    out := Leave(decode, arch, Records(fs), why, out, prev);
    r := Converted(out, total, why != End);
  }

  lemma RecordsSnoc(fs: seq<Frame>, f: Frame)
    ensures Records(fs + [f]) == Records(fs) + [f.rec]
  {
  }

  /** The file header, field by field. */
  method ReadFileHeader(reader: Reader) returns (h: Opened)
    requires reader.Valid()
    modifies reader
    ensures reader.Valid() && h == ReadHeader(old(reader.Remaining()))
    ensures h.Opened? ==> reader.Remaining() == old(reader.Remaining())[FILE_HEADER_SIZE..]
  {
    ghost var all := reader.Remaining();
    var ok, magic, version, vcpu, tail;
    ok, magic := reader.ReadExact(4);
    if ok {
      ok, version := reader.ReadExact(4);
    }
    if ok {
      ok, vcpu := reader.ReadExact(4);
    }
    if ok {
      ok, tail := reader.ReadExact(4);
    }
    if !ok {
      return Refused(ShortHeader);
    }
    assert all[..4] == magic && all[4..8] == version && all[8..12] == vcpu && all[12..16] == tail;
    assert all[12] == tail[0] && all[13] == tail[1];
    var v := FromLe(version);
    if FromLe(magic) != TRACE_FORMAT_MAGIC {
      return Refused(BadMagic);
    }
    if v != 2 && v != 3 {
      return Refused(BadVersion);
    }
    var arch: Byte, hasPa, hasVals := 0, false, true;
    if v == 3 {
      arch, hasPa, hasVals := tail[0], tail[1] % 2 == 1, tail[1] / 2 % 2 == 1;
      if arch != 0 && arch != 1 {
        return Refused(BadArch);
      }
    }
    h := Opened(v, FromLe(vcpu), arch, Layout(hasPa, hasVals));
  }

  /** raw2champsim on one file, however the decompressor slices it. */
  method ConvertFile(decode: Decoder, slices: seq<seq<Byte>>, maxInsns: nat) returns (r: Conversion)
    ensures r == ConversionOf(decode, Flatten(slices), maxInsns)
  {
    var reader := new Reader(slices);
    var h := ReadFileHeader(reader);
    if h.Refused? {
      return Rejected(h.error);
    }
    r := ConvertStream(decode, h.arch, h.layout, maxInsns, reader);
  }
}
