/** What each record of a converted trace says about the raw record it comes from and the one after it. */
module ConvertMeaning {
  import opened Bytes
  import opened ChampSim
  import opened Convert
  import opened RawFormat

  // ---- memory slots ----

  predicate IsLoad(op: MemOp) { op.flags % 2 == 0 }

  predicate IsStore(op: MemOp) { op.flags % 2 == 1 }

  /** The slot holds the operation: its address and width, its physical address unless that is unknown or device
      memory, and its value followed by zeros. */
  ghost predicate Holds(slot: Slot, op: MemOp)
  {
    && slot.addr == op.addr && slot.size == op.size
    && slot.pa == (if op.flags / 4 % 2 == 1 && op.flags / 8 % 2 == 0 then op.paddr else 0)
    && |slot.value| == 64
    && forall b :: 0 <= b < 64 ==> slot.value[b] == if b < |op.value| then op.value[b] else 0
  }

  ghost predicate IsEmpty(slot: Slot)
  {
    && slot.addr == 0 && slot.pa == 0 && slot.size == 0 && |slot.value| == 64
    && forall b :: 0 <= b < 64 ==> slot.value[b] == 0
  }

  /** Slot j holds the j-th operation of its kind, and the slots left over are empty. */
  ghost predicate SlotsHold(ops: seq<MemOp>, kind: MemOp -> bool, slots: seq<Slot>, n: nat)
  {
    && |slots| == n
    && (forall m :: 0 <= m < |ops| && kind(ops[m]) && Count(ops[..m], kind) < n ==>
          Holds(slots[Count(ops[..m], kind)], ops[m]))
    && (forall j :: Count(ops, kind) <= j < n ==> IsEmpty(slots[j]))
  }

  function Kind(write: bool): MemOp -> bool
  {
    if write then IsStore else IsLoad
  }

  /** Side lists the operations of one kind: the m-th operation is at the number of those before it. */
  lemma {:induction false} SideLists(ops: seq<MemOp>, write: bool, m: nat)
    requires m < |ops| && Kind(write)(ops[m])
    ensures |Side(ops, write)| == Count(ops, Kind(write))
    ensures Count(ops[..m], Kind(write)) < |Side(ops, write)|
    ensures Side(ops, write)[Count(ops[..m], Kind(write))] == ops[m]
  {
    var n := |ops| - 1;
    var front := ops[..n];
    SideLength(ops, write);
    SideLength(front, write);
    if m < n {
      SideLists(front, write, m);
      assert front[..m] == ops[..m];
    }
  }

  lemma {:induction false} SideLength(ops: seq<MemOp>, write: bool)
    ensures |Side(ops, write)| == Count(ops, Kind(write))
  {
    if ops == [] {
    } else {
      SideLength(ops[..|ops| - 1], write);
    }
  }

  lemma SlotHolds(op: MemOp)
    ensures Holds(SlotOf(op), op)
  {
  }

  lemma SideSlots(ops: seq<MemOp>, write: bool, n: nat)
    ensures SlotsHold(ops, Kind(write), Slots(Side(ops, write), n), n)
  {
    var side, kind := Side(ops, write), Kind(write);
    var slots := Slots(side, n);
    SideLength(ops, write);
    forall m | 0 <= m < |ops| && kind(ops[m]) && Count(ops[..m], kind) < n
      ensures Holds(slots[Count(ops[..m], kind)], ops[m])
    {
      SideLists(ops, write, m);
      SlotHolds(ops[m]);
    }
    forall j | Count(ops, kind) <= j < n ensures IsEmpty(slots[j]) {
      assert slots[j] == NO_SLOT;
    }
  }

  // ---- one record ----

  /** Everything but the direction. */
  ghost predicate Describes(d: Decoded, r: RawRecord, o: OutRecord)
  {
    && o.ip == r.ip && o.privilege == r.privilege
    && (o.isBranch <==> d.ok && d.code > 0)
    && o.branchType == (if d.ok && d.code > 0 then d.code - 1 else 7)
    && o.instrType == (if d.ok then d.instrType else 0)
    && |o.dstRegs| == 2 && |o.srcRegs| == 4
    && (forall b :: 0 <= b < 2 ==> o.dstRegs[b] == if d.ok && b < |d.dst| then d.dst[b] else 0)
    && (forall b :: 0 <= b < 4 ==> o.srcRegs[b] == if d.ok && b < |d.src| then d.src[b] else 0)
    && o.features == 3 && o.tracerId == 4
    && SlotsHold(r.ops, IsLoad, o.src, 4) && SlotsHold(r.ops, IsStore, o.dst, 2)
  }

  /** Jumps, calls and returns are taken; a CONDITIONAL or OTHER branch is taken exactly when the next instruction is
      not the one right after it; nothing else is. */
  ghost predicate DirectionOf(rs: seq<RawRecord>, i: nat, o: OutRecord)
    requires i < |rs|
  {
    && (!o.isBranch ==> !o.taken)
    && (o.isBranch && o.branchType in {0, 1, 3, 4, 5} ==> o.taken)
    && (o.isBranch && o.branchType in {2, 6} ==>
          i + 1 < |rs|
          && (o.taken <==> rs[i + 1].ip != (rs[i].ip + |rs[i].insn|) % 0x1_0000_0000_0000_0000))
  }

  /** The last record has no direction of its own, or was lost to the error that came next. */
  ghost predicate LastIsLost(decode: Decoder, arch: Byte, rs: seq<RawRecord>, why: Stop)
  {
    rs != [] &&
    var d := decode(arch, rs[|rs| - 1].insn);
    why in {TruncatedOp, CorruptOp, TruncatedValue} || (d.ok && (d.code == 3 || d.code == 7))
  }

  /** One output record for every raw record, in order, but perhaps not for the last. */
  ghost predicate TraceOf(decode: Decoder, arch: Byte, rs: seq<RawRecord>, why: Stop, out: seq<OutRecord>)
  {
    && |out| == |rs| - (if LastIsLost(decode, arch, rs, why) then 1 else 0)
    && (forall i :: 0 <= i < |out| ==> Describes(decode(arch, rs[i].insn), rs[i], out[i]))
    && (forall i :: 0 <= i < |out| ==> DirectionOf(rs, i, out[i]))
  }

  lemma BaseDescribes(decode: Decoder, arch: Byte, r: RawRecord, taken: bool)
    ensures Describes(decode(arch, r.insn), r, Base(decode, arch, r).(taken := taken))
  {
    SideSlots(r.ops, false, 4);
    SideSlots(r.ops, true, 2);
  }

  lemma DirectedHasDirection(decode: Decoder, arch: Byte, rs: seq<RawRecord>, i: nat)
    requires i < |rs| && (i + 1 < |rs| || Decidable(Base(decode, arch, rs[i])))
    ensures DirectionOf(rs, i, Directed(decode, arch, rs, i))
  {
  }

  lemma KeptMeaning(decode: Decoder, arch: Byte, rs: seq<RawRecord>, why: Stop)
    ensures Kept(decode, arch, rs, why) == |rs| - if LastIsLost(decode, arch, rs, why) then 1 else 0
  {
  }

  lemma OutputMeaning(decode: Decoder, arch: Byte, rs: seq<RawRecord>, why: Stop)
    ensures TraceOf(decode, arch, rs, why, Output(decode, arch, rs, why))
  {
    var out := Output(decode, arch, rs, why);
    KeptMeaning(decode, arch, rs, why);
    forall i | 0 <= i < |out|
      ensures Describes(decode(arch, rs[i].insn), rs[i], out[i]) && DirectionOf(rs, i, out[i])
    {
      BaseDescribes(decode, arch, rs[i], Taken(decode, arch, rs, i));
      DirectedHasDirection(decode, arch, rs, i);
    }
  }

  // ---- the whole file ----

  /** The records a conversion sees: all that can be read, or the first maxInsns of them, and why it stops. */
  function Seen(sc: Scanned, maxInsns: nat): (seq<RawRecord>, Stop)
  {
    if 0 < maxInsns <= |sc.frames| then (Records(sc.frames)[..maxInsns], End) else (Records(sc.frames), sc.stop)
  }

  lemma SeenIsLimited(sc: Scanned, maxInsns: nat)
    ensures Seen(sc, maxInsns) == (Records(Limited(sc, maxInsns).frames), Limited(sc, maxInsns).stop)
  {
    if 0 < maxInsns <= |sc.frames| {
      assert Records(sc.frames[..maxInsns]) == Records(sc.frames)[..maxInsns];
    }
  }

  /** What every converted file says. */
  ghost predicate Converts(decode: Decoder, bytes: seq<Byte>, maxInsns: nat, c: Conversion)
  {
    c.Converted? ==>
      var h := ReadHeader(bytes);
      h.Opened? &&
      var seen := Seen(Scan(h.layout, bytes[FILE_HEADER_SIZE..]), maxInsns);
      TraceOf(decode, h.arch, seen.0, seen.1, c.out) && c.total == |seen.0| && (c.failed <==> seen.1 != End)
  }

  /** For every file, decoder and -n: the trace is the file's records in order, each with its own registers, memory
      operations and direction. */
  lemma ConversionMeaning(decode: Decoder, bytes: seq<Byte>, maxInsns: nat)
    ensures Converts(decode, bytes, maxInsns, ConversionOf(decode, bytes, maxInsns))
    ensures ConversionOf(decode, bytes, maxInsns).Converted? <==> ReadHeader(bytes).Opened?
  {
    var h := ReadHeader(bytes);
    if h.Opened? {
      var sc := Scan(h.layout, bytes[FILE_HEADER_SIZE..]);
      SeenIsLimited(sc, maxInsns);
      OutputMeaning(decode, h.arch, Seen(sc, maxInsns).0, Seen(sc, maxInsns).1);
    }
  }

  /** In code that falls through everywhere no CONDITIONAL branch is taken. */
  lemma FallThroughTakesNothing(decode: Decoder, arch: Byte, rs: seq<RawRecord>, why: Stop, out: seq<OutRecord>)
    requires TraceOf(decode, arch, rs, why, out)
    requires forall i :: 0 <= i < |rs| - 1 ==> rs[i + 1].ip == (rs[i].ip + |rs[i].insn|) % U64_SPAN
    ensures forall i :: 0 <= i < |out| && out[i].branchType == CONDITIONAL ==> !out[i].taken
  {
    forall i | 0 <= i < |out| && out[i].branchType == CONDITIONAL ensures !out[i].taken {
      assert Describes(decode(arch, rs[i].insn), rs[i], out[i]) && DirectionOf(rs, i, out[i]);
    }
  }
}
