/** What one vCPU of the QEMU plugin captures, stated on record values: no bytes, no buffers, and no
    one-behind pending slot. The class in Capture.dfy is proved to refine this machine; the lemmas here
    say what the machine records over every event stream. */
module CaptureSpec {
  import opened Bytes
  import opened RawFormat

  // ---- events ----

  type VcpuId = v: nat | v < 16

  type InsnBytes = s: seq<Byte> | 1 <= |s| <= MAX_INSN_SIZE witness [0]

  datatype Phys = Phys(addr: U64, io: bool)

  /** A memory callback: width 2^shift, the physical lookup if it succeeded, the value if QEMU has one. */
  datatype Access = Access(vaddr: U64, shift: nat, store: bool, phys: Option<Phys>, value: Option<seq<Byte>>)

  /** canOpen: whether a chunk file this callback tries to create can be created. */
  datatype Event =
    | Exec(vaddr: U64, insn: InsnBytes, canOpen: bool)
    | Mem(access: Access)

  datatype Arch = X86 | Aarch64

  datatype Config = Config(
    layout: Layout, vcpu: VcpuId, arch: Arch,
    limit: nat, rotate: nat,
    sampleLen: nat, sampleGap: nat, sampleCount: nat, clockUser: bool)

  /** rotate= and sample_len= are mutually exclusive. */
  predicate ValidConfig(cfg: Config)
  {
    cfg.rotate == 0 || cfg.sampleLen == 0
  }

  predicate Chunking(cfg: Config)
  {
    cfg.rotate > 0 || cfg.sampleLen > 0
  }

  function KernelThreshold(arch: Arch): U64
  {
    match arch
    case X86 => 0xFFFF_8000_0000_0000
    case Aarch64 => 0xFF00_0000_0000_0000
  }

  // ---- records ----

  function Pow2(n: nat): nat
  {
    if n == 0 then 1 else 2 * Pow2(n - 1)
  }

  lemma {:induction false} Pow2Grows(n: nat, m: nat)
    requires n <= m
    ensures 1 <= Pow2(n) <= Pow2(m)
  {
    if m == 0 {
    } else if n == m {
      Pow2Grows(n - 1, m - 1);
    } else {
      Pow2Grows(n, m - 1);
    }
  }

  /** 1 << shift in a uint8_t: the access width, or 0 when that does not fit a byte. */
  function AccessSize(shift: nat): (size: Byte)
    ensures size == if shift < 8 then Pow2(shift) else 0
  {
    if shift < 8 then
      Pow2Grows(shift, 7);
      assert Pow2(3) == 8 && Pow2(5) == 4 * Pow2(3) && Pow2(7) == 4 * Pow2(5);
      Pow2(shift) % 256
    else 0
  }

  function MakeOp(l: Layout, a: Access): (op: MemOp)
    ensures ValidOp(l, op) && op.addr == a.vaddr
    ensures IsWrite(op.flags) == a.store
    ensures PaValid(op.flags) == (l.hasPa && a.phys.Some?)
    ensures PaValid(op.flags) ==> op.paddr == a.phys.value.addr && PaIsIo(op.flags) == a.phys.value.io
    ensures PaIsIo(op.flags) ==> PaValid(op.flags)
    ensures op.size == AccessSize(a.shift)
    ensures HasValue(op.flags) <==> l.hasValues && op.size <= VALUE_API_CAP && a.value.Some?
    ensures HasValue(op.flags) ==> op.value == Fit(a.value.value, op.size)
  {
    var size := AccessSize(a.shift);
    var known := l.hasPa && a.phys.Some?;
    var io := known && a.phys.value.io;
    var valued := l.hasValues && size <= VALUE_API_CAP && a.value.Some?;
    var flags: Byte := (if a.store then 1 else 0) + (if valued then 2 else 0)
                       + (if known then 4 else 0) + (if io then 8 else 0);
    MemOp(a.vaddr, if known then a.phys.value.addr else 0, size, flags,
          if valued then Fit(a.value.value, size) else [])
  }

  function NewRecord(cfg: Config, vaddr: U64, insn: InsnBytes): (r: RawRecord)
    ensures ValidRecord(cfg.layout, r)
  {
    RawRecord(cfg.vcpu, if vaddr >= KernelThreshold(cfg.arch) then 1 else 0, vaddr, insn, [])
  }

  function AddOp(l: Layout, r: RawRecord, a: Access): RawRecord
  {
    if |r.ops| >= MAX_MEM_OPS then r else r.(ops := r.ops + [MakeOp(l, a)])
  }

  function Observe(cfg: Config, xs: seq<RawRecord>, e: Event): seq<RawRecord>
  {
    match e
    case Exec(vaddr, insn, _) => xs + [NewRecord(cfg, vaddr, insn)]
    case Mem(a) => if xs == [] then [] else xs[|xs| - 1 := AddOp(cfg.layout, xs[|xs| - 1], a)]
  }

  /** The instruction stream the guest executed: every instruction with its own first seven memory
      operations. This is what an unlimited, unsampled capture holds. */
  function Executed(cfg: Config, es: seq<Event>): (xs: seq<RawRecord>)
  {
    if es == [] then [] else Observe(cfg, Executed(cfg, es[..|es| - 1]), es[|es| - 1])
  }

  predicate Qualifies(cfg: Config, r: RawRecord)
  {
    !cfg.clockUser || r.privilege == 0
  }

  // ---- the machine ----

  /** Recording into the newest file; skipping, with the clock ticks counted so far; stopped at the
      instruction limit with the file still open; or stopped with no file open. */
  datatype Mode = Recording | Gap(counted: nat) | AtLimit | Ended

  datatype Row = Row(chunk: nat, start: nat, count: nat)

  /** Every chunk file created so far, the manifest rows written, the stream position the newest file
      starts at, the instructions seen and the records captured. */
  datatype Machine = Machine(files: seq<seq<RawRecord>>, rows: seq<Row>, start: nat, stream: nat,
                             captured: nat, mode: Mode)

  const INSTALLED := Machine([[]], [], 0, 0, 0, Recording)

  function Last<T>(s: seq<T>): T
    requires s != []
  {
    s[|s| - 1]
  }

  /** close_chunk: a manifest row if chunks are being written and this one is not empty. */
  function Close(cfg: Config, m: Machine): Machine
    requires m.files != []
  {
    if Chunking(cfg) && Last(m.files) != []
    then m.(rows := m.rows + [Row(|m.files| - 1, m.start, |Last(m.files)|)])
    else m
  }

  function NewChunk(m: Machine, start: nat): Machine
  {
    m.(files := m.files + [[]], start := start, mode := Recording)
  }

  function Push(m: Machine, r: RawRecord): Machine
    requires m.files != []
  {
    m.(files := m.files[|m.files| - 1 := Last(m.files) + [r]], captured := m.captured + 1)
  }

  /** The limit and rotation checks, then the record itself. */
  function Record(cfg: Config, m: Machine, r: RawRecord, canOpen: bool): Machine
    requires m.files != []
  {
    if cfg.limit > 0 && m.captured >= cfg.limit then m.(mode := AtLimit)
    else if cfg.rotate > 0 && |Last(m.files)| >= cfg.rotate then
      if canOpen then Push(NewChunk(Close(cfg, m), m.captured), r) else Close(cfg, m).(mode := Ended)
    else Push(m, r)
  }

  /** The instruction r arrives in a gap that has counted c clock ticks. */
  function Skip(cfg: Config, m: Machine, c: nat, r: RawRecord, canOpen: bool): Machine
    requires m.files != []
  {
    if c < cfg.sampleGap then m.(mode := Gap(if Qualifies(cfg, r) then c + 1 else c))
    else if !Qualifies(cfg, r) then m.(mode := Gap(c))
    else if !canOpen then m.(mode := Ended)
    else Record(cfg, NewChunk(m, if m.stream > 0 then m.stream - 1 else 0), r, canOpen)
  }

  /** An instruction arrives while a chunk is open; a window that is already full ends with it. */
  function RecordOrEnd(cfg: Config, m: Machine, r: RawRecord, canOpen: bool): (m': Machine)
    requires m.files != []
    ensures m'.files != []
  {
    if cfg.sampleLen > 0 && |Last(m.files)| >= cfg.sampleLen then
      var closed := Close(cfg, m);
      if cfg.sampleCount > 0 && |m.files| >= cfg.sampleCount then closed.(mode := Ended)
      else Skip(cfg, closed, 0, r, canOpen)
    else Record(cfg, m, r, canOpen)
  }

  function Execute(cfg: Config, m: Machine, r: RawRecord, canOpen: bool): (m': Machine)
    requires m.files != []
    ensures m'.files != []
  {
    if m.mode.Ended? || m.mode.AtLimit? then m else
    var seen := m.(stream := m.stream + 1);
    if m.mode.Gap? then Skip(cfg, seen, m.mode.counted, r, canOpen)
    else RecordOrEnd(cfg, seen, r, canOpen)
  }

  /** A memory operation attaches to the newest record, and only while recording. */
  function Attach(cfg: Config, m: Machine, a: Access): (m': Machine)
    requires m.files != []
    ensures m'.files != []
  {
    var f := Last(m.files);
    if !m.mode.Recording? || f == [] then m
    else m.(files := m.files[|m.files| - 1 := f[|f| - 1 := AddOp(cfg.layout, Last(f), a)]])
  }

  function Step(cfg: Config, m: Machine, e: Event): (m': Machine)
    requires m.files != []
    ensures m'.files != []
  {
    match e
    case Exec(vaddr, insn, canOpen) => Execute(cfg, m, NewRecord(cfg, vaddr, insn), canOpen)
    case Mem(a) => Attach(cfg, m, a)
  }

  function Run(cfg: Config, es: seq<Event>): (m: Machine)
    ensures m.files != []
  {
    if es == [] then INSTALLED else Step(cfg, Run(cfg, es[..|es| - 1]), es[|es| - 1])
  }

  /** plugin_atexit closes whatever it believes is open. */
  function Exit(cfg: Config, m: Machine): Machine
    requires m.files != []
  {
    if m.mode.Ended? then m else Close(cfg, m)
  }

  ghost predicate AllOpen(es: seq<Event>)
  {
    forall e :: e in es && e.Exec? ==> e.canOpen
  }

  // ---- every captured record is well formed ----

  ghost predicate ValidRecords(l: Layout, rs: seq<RawRecord>)
  {
    forall r :: r in rs ==> ValidRecord(l, r)
  }

  ghost predicate ValidFiles(cfg: Config, m: Machine)
  {
    forall f :: f in m.files ==> ValidRecords(cfg.layout, f)
  }

  lemma AddOpValid(l: Layout, r: RawRecord, a: Access)
    requires ValidRecord(l, r)
    ensures ValidRecord(l, AddOp(l, r, a))
  {
  }

  lemma StepValid(cfg: Config, m: Machine, e: Event)
    requires m.files != [] && ValidFiles(cfg, m)
    ensures ValidFiles(cfg, Step(cfg, m, e))
  {
    var f := Last(m.files);
    assert f in m.files;
    match e
    case Exec(vaddr, insn, canOpen) =>
      assert ValidRecords(cfg.layout, f + [NewRecord(cfg, vaddr, insn)]);
      assert ValidRecords(cfg.layout, [] + [NewRecord(cfg, vaddr, insn)]);
    case Mem(a) =>
      if f != [] {
        assert Last(f) in f;
        AddOpValid(cfg.layout, Last(f), a);
      }
  }

  lemma {:induction false} RunValid(cfg: Config, es: seq<Event>)
    ensures ValidFiles(cfg, Run(cfg, es))
  {
    if es == [] {
    } else {
      RunValid(cfg, es[..|es| - 1]);
      StepValid(cfg, Run(cfg, es[..|es| - 1]), es[|es| - 1]);
    }
  }
}
