/** The QEMU plugin's per-vCPU capture as it runs: byte buffers, a pending slot one instruction behind, and
    the chunk lifecycle. Every callback is proved to be a step of CaptureSpec's machine, with the files
    holding exactly the serialized records. */
module Capture {
  import opened Bytes
  import opened RawFormat
  import opened CaptureSpec

  const INPUT_BUF_SIZE: nat := 16 * 1024 * 1024
  const FLUSH_THRESHOLD: nat := INPUT_BUF_SIZE - 8192
  const STAGING_BUF_SIZE: nat := 1024

  /** Serialize one memory operation at pos. */
  method StageOp(l: Layout, staging: array<Byte>, pos: nat, op: MemOp) returns (end: nat)
    requires ValidOp(l, op) && pos + 82 <= staging.Length
    modifies staging
    ensures pos <= end <= pos + 82
    ensures staging[..end] == old(staging[..pos]) + SerializeOp(l, op)
  {
    end := CopyInto(staging, pos, ToLe(WORD, op.addr));
    if l.hasPa {
      end := CopyInto(staging, end, ToLe(WORD, op.paddr));
    }
    end := CopyInto(staging, end, [op.size, op.flags]);
    assert staging[..end] == old(staging[..pos]) + OpHeader(l, op);
    if HasValue(op.flags) {
      end := CopyInto(staging, end, op.value);
    }
  }

  /** Serialize a whole record at the start of the staging buffer; it never overflows. */
  method StageRecord(l: Layout, staging: array<Byte>, r: RawRecord) returns (end: nat)
    requires ValidRecord(l, r) && staging.Length == STAGING_BUF_SIZE
    modifies staging
    ensures end <= MAX_RECORD_SIZE <= staging.Length && staging[..end] == Serialize(l, r)
  {
    end := CopyInto(staging, 0, ToLe(HALF, EncodeHeader(r.vcpu, r.privilege, |r.insn|, |r.ops|)));
    end := CopyInto(staging, end, ToLe(WORD, r.ip));
    end := CopyInto(staging, end, r.insn);
    assert staging[..end] == RecordHead(r);
    var i := 0;
    while i < |r.ops|
      invariant 0 <= i <= |r.ops| && end <= 27 + 82 * i
      invariant staging[..end] == RecordHead(r) + SerializeOps(l, r.ops[..i])
    {
      assert r.ops[i] in r.ops;
      SerializeOpsSnoc(l, r.ops[..i], r.ops[i]);
      assert r.ops[..i + 1] == r.ops[..i] + [r.ops[i]];
      ConcatParts(RecordHead(r), SerializeOps(l, r.ops[..i]), SerializeOp(l, r.ops[i]));
      end := StageOp(l, staging, end, r.ops[i]);
      i := i + 1;
    }
    assert r.ops[..i] == r.ops;
  }

  /** The output side of a chunk: an uncompressed buffer in front of the file. */
  class ChunkStream {
    const inbuf: array<Byte>
    var inbufPos: nat
    var isOpen: bool
    var file: seq<Byte>  // what has gone through the compressor

    ghost predicate Valid()
      reads this
    {
      inbuf.Length == INPUT_BUF_SIZE && inbufPos <= FLUSH_THRESHOLD
    }

    /** Everything written to this chunk so far, flushed or not. */
    ghost function Contents(): seq<Byte>
      reads this, inbuf
      requires Valid()
    {
      file + inbuf[..inbufPos]
    }

    constructor ()
      ensures Valid() && fresh(inbuf) && !isOpen
    {
      inbuf := new Byte[INPUT_BUF_SIZE];
      inbufPos, isOpen, file := 0, false, [];
    }

    method FlushBuffer()
      requires Valid()
      modifies this
      ensures Valid() && Contents() == old(Contents()) && isOpen == old(isOpen)
      ensures isOpen ==> inbufPos == 0
    {
      if inbufPos == 0 || !isOpen {
        return;
      }
      file := file + inbuf[..inbufPos];
      inbufPos := 0;
    }

    /** Whatever flushes happen, the chunk gains exactly data, and the buffer never overflows. */
    method BufferAppend(data: seq<Byte>)
      requires Valid() && isOpen && |data| <= STAGING_BUF_SIZE
      modifies this, inbuf
      ensures Valid() && isOpen && Contents() == old(Contents()) + data
    {
      if inbufPos + |data| > FLUSH_THRESHOLD {
        FlushBuffer();
      }
      ghost var before := inbuf[..inbufPos];
      inbufPos := CopyInto(inbuf, inbufPos, data);
      ConcatParts(file, before, data);
    }

    method Open()
      requires Valid()
      modifies this
      ensures Valid() && isOpen && Contents() == []
    {
      inbufPos, file, isOpen := 0, [], true;
    }

    /** flush_final and fclose. */
    method Close() returns (bytes: seq<Byte>)
      requires Valid() && isOpen
      modifies this
      ensures Valid() && !isOpen && bytes == old(Contents())
    {
      FlushBuffer();
      bytes, isOpen := file, false;
    }
  }

  function ArchByte(arch: Arch): Byte
  {
    match arch
    case X86 => 0
    case Aarch64 => 1
  }

  /** The bytes of a chunk holding the records rs. */
  function ChunkBytes(cfg: Config, rs: seq<RawRecord>): seq<Byte>
  {
    FileHeader(cfg.vcpu, ArchByte(cfg.arch), cfg.layout) + SerializeAll(cfg.layout, rs)
  }

  function FilesBytes(cfg: Config, files: seq<seq<RawRecord>>): (bytes: seq<seq<Byte>>)
    ensures |bytes| == |files|
  {
    seq(|files|, i requires 0 <= i < |files| => ChunkBytes(cfg, files[i]))
  }

  lemma ChunkBytesSnoc(cfg: Config, rs: seq<RawRecord>, r: RawRecord)
    ensures ChunkBytes(cfg, rs + [r]) == ChunkBytes(cfg, rs) + Serialize(cfg.layout, r)
  {
    SerializeAllAppend(cfg.layout, rs, [r]);
    assert SerializeAll(cfg.layout, [r]) == Serialize(cfg.layout, r) + [];
  }

  class Vcpu {
    const cfg: Config
    const stream: ChunkStream
    var closed: seq<seq<Byte>>  // the finished chunk files, in order
    var manifest: seq<Row>

    var hasPending: bool
    var pending: RawRecord

    var insnCount: nat
    var limitReached: bool
    var chunkIndex: nat
    var chunkInsnCount: nat
    var chunkStartInsn: nat
    var sampleSkipping: bool
    var samplePhaseInsns: nat
    var sampleWindowsDone: nat
    var sampleFinished: bool
    var streamInsns: nat

    /** How far the counters run ahead of what has been written. */
    ghost function Ahead(): nat
      reads this
    {
      if hasPending then 1 else 0
    }

    /** The counters. */
    ghost predicate Counts(m: Machine)
      reads this
    {
      && m.files != []
      && manifest == m.rows && chunkStartInsn == m.start && streamInsns == m.stream
      && insnCount + Ahead() == m.captured
      && chunkIndex + 1 == |m.files|
      && chunkInsnCount + Ahead() == |Last(m.files)|
    }

    /** No chunk is open: every file is finished. */
    ghost predicate Between(m: Machine)
      reads this, stream
    {
      && stream.Valid() && !stream.isOpen && !hasPending
      && ValidFiles(cfg, m)
      && closed == FilesBytes(cfg, m.files)
    }

    /** The newest chunk is open and holds all its records but the pending one. */
    ghost predicate Writing(m: Machine)
      reads this, stream, stream.inbuf
    {
      && stream.Valid() && stream.isOpen
      && m.files != [] && ValidFiles(cfg, m)
      && closed == FilesBytes(cfg, m.files[..|m.files| - 1])
      && if hasPending
         then Last(m.files) != [] && pending == Last(Last(m.files))
              && stream.Contents() == ChunkBytes(cfg, Last(m.files)[..|Last(m.files)| - 1])
         else stream.Contents() == ChunkBytes(cfg, Last(m.files))
    }

    /** The object represents m. */
    ghost predicate Represents(m: Machine)
      reads this, stream, stream.inbuf
    {
      && (sampleFinished ==> limitReached)
      && match m.mode {
           case Recording =>
             && Writing(m) && Counts(m) && !limitReached && !sampleSkipping
             && hasPending == (Last(m.files) != [])
             && (cfg.sampleLen > 0 ==> sampleWindowsDone + 1 == |m.files|)
           case Gap(c) =>
             && Between(m) && Counts(m) && !limitReached && sampleSkipping && samplePhaseInsns == c
             && cfg.sampleLen > 0 && sampleWindowsDone == |m.files|
           case AtLimit => Writing(m) && Counts(m) && limitReached && !hasPending
           case Ended => Between(m) && limitReached && manifest == m.rows && chunkInsnCount == 0
         }
    }

    /** qemu_plugin_install: chunk 0 is opened before the first instruction. */
    constructor (config: Config)
      requires ValidConfig(config)
      ensures cfg == config && Represents(INSTALLED) && fresh(stream) && fresh(stream.inbuf)
    {
      stream := new ChunkStream();
      cfg, closed, manifest, hasPending := config, [], [], false;
      insnCount, limitReached, chunkIndex, chunkInsnCount, chunkStartInsn := 0, false, 0, 0, 0;
      sampleSkipping, samplePhaseInsns, sampleWindowsDone, sampleFinished := false, 0, 0, false;
      streamInsns, pending := 0, RawRecord(0, 0, 0, [], []);
      new;
      var ok := OpenChunk(true);
    }

    /** Write the pending record out. */
    method FinalizePendingInsn()
      requires stream.Valid()
      requires hasPending ==> stream.isOpen && ValidRecord(cfg.layout, pending)
      modifies this`hasPending, this`insnCount, this`chunkInsnCount, stream, stream.inbuf
      ensures stream.Valid() && stream.isOpen == old(stream.isOpen) && !hasPending
      ensures insnCount == old(insnCount + Ahead()) && chunkInsnCount == old(chunkInsnCount + Ahead())
      ensures if old(hasPending)
              then stream.Contents() == old(stream.Contents()) + Serialize(cfg.layout, pending)
              else stream.Contents() == old(stream.Contents())
    {
      if !hasPending {
        return;
      }
      var staging := new Byte[STAGING_BUF_SIZE];
      var end := StageRecord(cfg.layout, staging, pending);
      stream.BufferAppend(staging[..end]);
      insnCount, chunkInsnCount, hasPending := insnCount + 1, chunkInsnCount + 1, false;
    }

    lemma LastRecord(m: Machine)
      requires m.files != [] && ValidFiles(cfg, m) && Last(m.files) != []
      ensures var f, r := Last(m.files), Last(Last(m.files));
              && ValidRecord(cfg.layout, r)
              && ChunkBytes(cfg, f) == ChunkBytes(cfg, f[..|f| - 1]) + Serialize(cfg.layout, r)
    {
      var f := Last(m.files);
      assert f in m.files && Last(f) in f && f == f[..|f| - 1] + [Last(f)];
      ChunkBytesSnoc(cfg, f[..|f| - 1], Last(f));
    }

    /** The same, as a change of representation: the newest chunk now holds all its records. */
    method Settle(ghost m: Machine)
      requires Writing(m) && Counts(m)
      modifies this`hasPending, this`insnCount, this`chunkInsnCount, stream, stream.inbuf
      ensures Writing(m) && Counts(m) && !hasPending
    {
      if hasPending {
        LastRecord(m);
      }
      FinalizePendingInsn();
    }

    /** The 16-byte header at the front of a fresh chunk. */
    method WriteHeader()
      requires stream.Valid() && stream.isOpen && stream.Contents() == []
      modifies stream, stream.inbuf
      ensures stream.Valid() && stream.isOpen
      ensures stream.Contents() == FileHeader(cfg.vcpu, ArchByte(cfg.arch), cfg.layout)
    {
      var l := cfg.layout;
      var magic, version, vid := ToLe(HALF, TRACE_FORMAT_MAGIC), ToLe(HALF, TRACE_FORMAT_VER), ToLe(HALF, cfg.vcpu);
      var tail: seq<Byte> := [ArchByte(cfg.arch), (if l.hasPa then 1 else 0) + (if l.hasValues then 2 else 0),
                              if l.hasValues then VALUE_API_CAP else 0, 0];
      stream.BufferAppend(magic);
      stream.BufferAppend(version);
      stream.BufferAppend(vid);
      stream.BufferAppend(tail);
      assert [] + magic == magic;
      assert magic + version + vid + tail == FileHeader(cfg.vcpu, ArchByte(cfg.arch), cfg.layout);
    }

    method OpenChunk(canOpen: bool) returns (ok: bool)
      requires stream.Valid() && !stream.isOpen
      modifies this`chunkInsnCount, this`chunkStartInsn, stream, stream.inbuf
      ensures ok == canOpen && stream.Valid() && stream.isOpen == ok
      ensures !ok ==> chunkInsnCount == old(chunkInsnCount) && chunkStartInsn == old(chunkStartInsn)
      ensures ok ==>
                && stream.Contents() == ChunkBytes(cfg, []) && chunkInsnCount == 0
                && chunkStartInsn == if cfg.sampleLen > 0 then (if streamInsns > 0 then streamInsns - 1 else 0)
                                     else insnCount
    {
      if !canOpen {
        return false;
      }
      stream.Open();
      chunkInsnCount := 0;
      chunkStartInsn := if cfg.sampleLen > 0 then (if streamInsns > 0 then streamInsns - 1 else 0) else insnCount;
      WriteHeader();
      assert stream.Contents() + [] == stream.Contents();
      ok := true;
    }

    /** Finalize and end the open file. */
    method EndFile(ghost m: Machine)
      requires Writing(m) && Counts(m)
      modifies this`closed, this`hasPending, this`insnCount, this`chunkInsnCount, stream, stream.inbuf
      ensures Between(m)
      ensures insnCount == old(insnCount + Ahead()) && chunkInsnCount == old(chunkInsnCount + Ahead())
    {
      Settle(m);
      var bytes := stream.Close();
      closed := closed + [bytes];
      FilesSnoc(m.files);
    }

    lemma FilesSnoc(files: seq<seq<RawRecord>>)
      requires files != []
      ensures FilesBytes(cfg, files) == FilesBytes(cfg, files[..|files| - 1]) + [ChunkBytes(cfg, Last(files))]
    {
    }

    /** Finalize, end the file if one is open, and index it if it holds anything. */
    method CloseChunk(ghost m: Machine)
      requires (Writing(m) && Counts(m)) || Between(m)
      modifies this`closed, this`manifest, this`hasPending, this`insnCount, this`chunkInsnCount
      modifies stream, stream.inbuf
      ensures Between(m)
      ensures insnCount == old(insnCount + Ahead()) && chunkInsnCount == old(chunkInsnCount + Ahead())
      ensures manifest == old(manifest) + if Chunking(cfg) && chunkInsnCount > 0
                                          then [Row(chunkIndex, chunkStartInsn, chunkInsnCount)] else []
    {
      if stream.isOpen {
        EndFile(m);
      }
      if Chunking(cfg) && chunkInsnCount > 0 {
        manifest := manifest + [Row(chunkIndex, chunkStartInsn, chunkInsnCount)];
      }
    }

    /** The newest chunk is open with everything written, ready for an instruction. */
    ghost predicate Ready(m: Machine)
      reads this, stream, stream.inbuf
    {
      && m.mode.Recording? && Writing(m) && Counts(m) && !hasPending
      && !limitReached && !sampleSkipping && !sampleFinished
      && (cfg.sampleLen > 0 ==> sampleWindowsDone + 1 == |m.files|)
    }

    /** Where a chunk opened now starts. */
    ghost function NextStart(): nat
      reads this
    {
      if cfg.sampleLen > 0 then (if streamInsns > 0 then streamInsns - 1 else 0) else insnCount
    }

    /** Start the next chunk; if its file cannot be created, stop this vCPU with no chunk to index. */
    method NextChunk(ghost m: Machine, canOpen: bool) returns (ok: bool)
      requires Between(m) && Counts(m)
      modifies this`chunkIndex, this`chunkInsnCount, this`chunkStartInsn, this`limitReached
      modifies stream, stream.inbuf
      ensures ok == canOpen
      ensures if ok
              then Writing(NewChunk(m, old(NextStart()))) && Counts(NewChunk(m, old(NextStart())))
                   && limitReached == old(limitReached)
              else Between(m) && limitReached && chunkInsnCount == 0
    {
      chunkIndex := chunkIndex + 1;
      ok := OpenChunk(canOpen);
      if !ok {
        chunkInsnCount := 0;
        limitReached := true;
      } else {
        OpenedFiles(m.files);
      }
    }

    /** The files of a machine that just opened a chunk. */
    lemma OpenedFiles(files: seq<seq<RawRecord>>)
      ensures (files + [[]])[..|files|] == files && Last(files + [[]]) == []
    {
    }

    /** Close a chunk that is about to be followed by another. */
    method CloseReady(ghost m: Machine)
      requires Ready(m)
      modifies this`closed, this`manifest, this`hasPending, this`insnCount, this`chunkInsnCount
      modifies stream, stream.inbuf
      ensures Between(Close(cfg, m)) && Counts(Close(cfg, m))
      ensures insnCount == old(insnCount)
    {
      CloseChunk(m);
    }

    /** The next chunk, which starts at start; or this vCPU stops. */
    method OpenNext(ghost m: Machine, ghost start: nat, canOpen: bool) returns (ok: bool)
      requires Between(m) && Counts(m) && start == NextStart()
      requires !limitReached && !sampleSkipping && !sampleFinished
      requires cfg.sampleLen > 0 ==> sampleWindowsDone == |m.files|
      modifies this`chunkIndex, this`chunkInsnCount, this`chunkStartInsn, this`limitReached
      modifies stream, stream.inbuf
      ensures ok == canOpen
      ensures if ok then Ready(NewChunk(m, start)) else Represents(m.(mode := Ended))
    {
      ok := NextChunk(m, canOpen);
    }

    /** The rotation boundary: close the full chunk and start the next one. */
    method Rotate(ghost m: Machine, canOpen: bool) returns (ok: bool)
      requires Ready(m) && cfg.sampleLen == 0 && ValidConfig(cfg)
      modifies this`closed, this`manifest, this`hasPending, this`insnCount, this`chunkInsnCount
      modifies this`chunkIndex, this`chunkStartInsn, this`limitReached, stream, stream.inbuf
      ensures ok == canOpen
      ensures if ok then Ready(NewChunk(Close(cfg, m), m.captured))
              else Represents(Close(cfg, m).(mode := Ended))
    {
      CloseReady(m);
      ok := OpenNext(Close(cfg, m), m.captured, canOpen);
    }

    /** The limit and rotation checks, then the instruction becomes the pending one. */
    method RecordInsn(ghost m: Machine, vaddr: U64, insn: InsnBytes, canOpen: bool)
      requires Ready(m) && ValidConfig(cfg)
      modifies this`closed, this`manifest, this`hasPending, this`insnCount, this`chunkInsnCount, this`pending
      modifies this`chunkIndex, this`chunkStartInsn, this`limitReached, stream, stream.inbuf
      ensures Represents(Record(cfg, m, NewRecord(cfg, vaddr, insn), canOpen))
    {
      if cfg.limit > 0 && insnCount >= cfg.limit {
        limitReached := true;
        stream.FlushBuffer();
        return;
      }
      ghost var m' := m;
      if cfg.rotate > 0 && chunkInsnCount >= cfg.rotate {
        var ok := Rotate(m, canOpen);
        if !ok {
          return;
        }
        m' := NewChunk(Close(cfg, m), m.captured);
      }
      StorePending(m', vaddr, insn);
    }

    method StorePending(ghost m: Machine, vaddr: U64, insn: InsnBytes)
      requires Ready(m)
      modifies this`hasPending, this`pending
      ensures Represents(Push(m, NewRecord(cfg, vaddr, insn)))
    {
      hasPending := true;
      pending := NewRecord(cfg, vaddr, insn);
      ghost var f := Last(m.files);
      assert (f + [pending])[..|f|] == f;
      ghost var m' := Push(m, pending);
      assert m'.files[..|m.files| - 1] == m.files[..|m.files| - 1];
      PushValid(m, pending);
    }

    lemma PushValid(m: Machine, r: RawRecord)
      requires m.files != [] && ValidFiles(cfg, m) && ValidRecord(cfg.layout, r)
      ensures ValidFiles(cfg, Push(m, r))
    {
      assert Last(m.files) in m.files;
      assert ValidRecords(cfg.layout, Last(m.files) + [r]);
    }

    /** The machine with the next window open. */
    function Begun(m: Machine): Machine
    {
      NewChunk(m, if m.stream > 0 then m.stream - 1 else 0)
    }

    lemma SkipOver(m: Machine, c: nat, r: RawRecord, canOpen: bool)
      requires m.files != [] && c >= cfg.sampleGap && Qualifies(cfg, r)
      ensures Skip(cfg, m, c, r, canOpen) == if canOpen then Record(cfg, Begun(m), r, canOpen) else m.(mode := Ended)
    {
    }

    /** An instruction seen in a gap: counted, or waited out, or the one that ends it. */
    method GapOver(ghost m: Machine, ghost r: RawRecord, isUser: bool, ghost canOpen: bool) returns (over: bool)
      requires isUser == (r.privilege == 0)
      requires Between(m) && Counts(m) && cfg.sampleLen > 0 && !limitReached && !sampleFinished
      requires sampleSkipping && sampleWindowsDone == |m.files|
      modifies this`samplePhaseInsns
      ensures !over ==> Represents(Skip(cfg, m, old(samplePhaseInsns), r, canOpen))
      ensures over ==> samplePhaseInsns == old(samplePhaseInsns) >= cfg.sampleGap && Qualifies(cfg, r)
    {
      if samplePhaseInsns < cfg.sampleGap {
        if !cfg.clockUser || isUser {
          samplePhaseInsns := samplePhaseInsns + 1;
        }
        return false;
      }
      over := !cfg.clockUser || isUser;
    }

    /** The gap is over: the next window opens, or this vCPU stops. */
    method OpenWindow(ghost m: Machine, canOpen: bool) returns (ok: bool)
      requires Between(m) && Counts(m) && cfg.sampleLen > 0 && !limitReached && !sampleFinished
      requires sampleWindowsDone == |m.files|
      modifies this`sampleSkipping, this`samplePhaseInsns, this`chunkIndex, this`chunkInsnCount
      modifies this`chunkStartInsn, this`limitReached, stream, stream.inbuf
      ensures ok == canOpen
      ensures if ok then Ready(Begun(m)) else Represents(m.(mode := Ended))
    {
      sampleSkipping := false;
      samplePhaseInsns := 0;
      ok := OpenNext(m, NextStart(), canOpen);
    }

    /** An instruction seen in a gap: count it, wait it out, or open the next window with it. */
    method CountGap(ghost m: Machine, ghost r: RawRecord, isUser: bool, canOpen: bool) returns (record: bool)
      requires isUser == (r.privilege == 0)
      requires Between(m) && Counts(m) && cfg.sampleLen > 0 && !limitReached && !sampleFinished
      requires sampleSkipping && sampleWindowsDone == |m.files|
      modifies this`sampleSkipping, this`samplePhaseInsns, this`chunkIndex, this`chunkInsnCount
      modifies this`chunkStartInsn, this`limitReached, stream, stream.inbuf
      ensures record ==> Ready(Begun(m)) && canOpen && old(samplePhaseInsns) >= cfg.sampleGap && Qualifies(cfg, r)
      ensures !record ==> Represents(Skip(cfg, m, old(samplePhaseInsns), r, canOpen))
    {
      var over := GapOver(m, r, isUser, canOpen);
      if !over {
        return false;
      }
      SkipOver(m, samplePhaseInsns, r, canOpen);
      record := OpenWindow(m, canOpen);
    }

    /** The callback in a gap, or at the end of a window: count the instruction, or record it as the first
        of the next window. */
    method ExecSkipping(ghost m: Machine, vaddr: U64, insn: InsnBytes, canOpen: bool)
      requires Between(m) && Counts(m) && ValidConfig(cfg)
      requires cfg.sampleLen > 0 && !limitReached && !sampleFinished
      requires sampleSkipping && sampleWindowsDone == |m.files|
      modifies this, stream, stream.inbuf
      ensures Represents(Skip(cfg, m, old(samplePhaseInsns), NewRecord(cfg, vaddr, insn), canOpen))
    {
      ghost var c := samplePhaseInsns;
      var record := CountGap(m, NewRecord(cfg, vaddr, insn), vaddr < KernelThreshold(cfg.arch), canOpen);
      if record {
        SkipOver(m, c, NewRecord(cfg, vaddr, insn), canOpen);
        RecordInsn(Begun(m), vaddr, insn, canOpen);
      }
    }

    /** The callback after a window's last instruction: close it, then count this instruction into the gap.
        It must not simply return, or this instruction would be neither recorded nor counted. */
    method EndWindow(ghost m: Machine, vaddr: U64, insn: InsnBytes, canOpen: bool)
      requires Ready(m) && ValidConfig(cfg) && cfg.sampleLen > 0 && chunkInsnCount >= cfg.sampleLen
      modifies this, stream, stream.inbuf
      ensures var closed := Close(cfg, m);
              Represents(if cfg.sampleCount > 0 && |m.files| >= cfg.sampleCount then closed.(mode := Ended)
                         else Skip(cfg, closed, 0, NewRecord(cfg, vaddr, insn), canOpen))
    {
      CloseReady(m);
      sampleWindowsDone := sampleWindowsDone + 1;
      samplePhaseInsns := 0;
      if cfg.sampleCount > 0 && sampleWindowsDone >= cfg.sampleCount {
        sampleFinished := true;
        limitReached := true;
        chunkInsnCount := 0;  // or plugin_atexit would index this chunk a second time
        return;
      }
      sampleSkipping := true;
      ExecSkipping(Close(cfg, m), vaddr, insn, canOpen);
    }

    /** The callback while a chunk is open: finalize, then the window boundary or the record itself. */
    method ExecRecording(ghost seen: Machine, vaddr: U64, insn: InsnBytes, canOpen: bool)
      requires ValidConfig(cfg) && seen.mode.Recording? && Represents(seen)
      modifies this, stream, stream.inbuf
      ensures Represents(RecordOrEnd(cfg, seen, NewRecord(cfg, vaddr, insn), canOpen))
    {
      Settle(seen);
      if cfg.sampleLen > 0 && chunkInsnCount >= cfg.sampleLen {
        EndWindow(seen, vaddr, insn, canOpen);
      } else {
        RecordInsn(seen, vaddr, insn, canOpen);
      }
    }

    /** The instruction is seen, whatever becomes of it. */
    method CountInsn(ghost m: Machine)
      requires Represents(m) && !limitReached
      modifies this`streamInsns
      ensures Represents(m.(stream := m.stream + 1))
    {
      streamInsns := streamInsns + 1;
    }

    lemma ExecStep(m: Machine, vaddr: U64, insn: InsnBytes, canOpen: bool)
      requires m.files != []
      ensures var r, seen := NewRecord(cfg, vaddr, insn), m.(stream := m.stream + 1);
              Step(cfg, m, Exec(vaddr, insn, canOpen))
              == match m.mode
                 case Gap(c) => Skip(cfg, seen, c, r, canOpen)
                 case Recording => RecordOrEnd(cfg, seen, r, canOpen)
                 case _ => m
    {
    }

    /** insn_exec_cb: finalize the previous instruction, then skip this one or make it the pending one.
        In a gap there is nothing pending, so finalizing first changes nothing. */
    method InsnExec(ghost m: Machine, vaddr: U64, insn: InsnBytes, canOpen: bool)
      requires ValidConfig(cfg) && m.files != [] && Represents(m)
      modifies this, stream, stream.inbuf
      ensures Represents(Step(cfg, m, Exec(vaddr, insn, canOpen)))
    {
      ExecStep(m, vaddr, insn, canOpen);
      if limitReached {
        return;
      }
      CountInsn(m);
      if sampleSkipping {
        ExecSkipping(m.(stream := m.stream + 1), vaddr, insn, canOpen);
      } else {
        ExecRecording(m.(stream := m.stream + 1), vaddr, insn, canOpen);
      }
    }

    /** mem_cb: only a pending instruction takes memory operations, and only its first seven. */
    method MemCb(ghost m: Machine, a: Access)
      requires m.files != [] && Represents(m)
      modifies this`pending
      ensures Represents(Step(cfg, m, Mem(a)))
    {
      if !limitReached && hasPending {
        if |pending.ops| < MAX_MEM_OPS {
          pending := pending.(ops := pending.ops + [MakeOp(cfg.layout, a)]);
        }
        AttachKeeps(m, a);
      }
    }

    /** A memory operation changes the newest record and nothing that was written before it. */
    lemma AttachKeeps(m: Machine, a: Access)
      requires m.files != [] && m.mode.Recording? && Last(m.files) != [] && ValidFiles(cfg, m)
      ensures var m', n, f := Attach(cfg, m, a), |m.files|, Last(m.files);
              && |m'.files| == n && m'.files[..n - 1] == m.files[..n - 1]
              && |Last(m'.files)| == |f| && Last(m'.files)[..|f| - 1] == f[..|f| - 1]
              && Last(Last(m'.files)) == AddOp(cfg.layout, Last(f), a)
              && ValidFiles(cfg, m')
    {
      StepValid(cfg, m, Mem(a));
    }

    method Callback(ghost m: Machine, e: Event)
      requires ValidConfig(cfg) && m.files != [] && Represents(m)
      modifies this, stream, stream.inbuf
      ensures Represents(Step(cfg, m, e))
    {
      match e
      case Exec(vaddr, insn, canOpen) => InsnExec(m, vaddr, insn, canOpen);
      case Mem(a) => MemCb(m, a);
    }

    /** The per-vCPU part of plugin_atexit. */
    method AtExit(ghost m: Machine)
      requires m.files != [] && Represents(m)
      modifies this, stream, stream.inbuf
      ensures manifest == Exit(cfg, m).rows
      ensures closed == FilesBytes(cfg, m.files)
    {
      CloseChunk(m);
    }
  }

  /** One vCPU over a whole run. */
  method CaptureRun(cfg: Config, es: seq<Event>) returns (files: seq<seq<Byte>>, manifest: seq<Row>)
    requires ValidConfig(cfg)
    ensures files == FilesBytes(cfg, Run(cfg, es).files)
    ensures manifest == Exit(cfg, Run(cfg, es)).rows
  {
    var v := new Vcpu(cfg);
    ghost var m := INSTALLED;
    var i := 0;
    while i < |es|
      invariant 0 <= i <= |es| && m == Run(cfg, es[..i])
      invariant v.cfg == cfg && v.Represents(m)
      invariant fresh(v) && fresh(v.stream) && fresh(v.stream.inbuf)
    {
      RunNext(cfg, es, i);
      v.Callback(m, es[i]);
      m := Step(cfg, m, es[i]);
      i := i + 1;
    }
    assert es[..i] == es;
    v.AtExit(m);
    files, manifest := v.closed, v.manifest;
  }

  lemma RunNext(cfg: Config, es: seq<Event>, i: nat)
    requires i < |es|
    ensures Run(cfg, es[..i + 1]) == Step(cfg, Run(cfg, es[..i]), es[i])
  {
    assert es[..i + 1][..i] == es[..i];
  }
}
