/** The raw format byte by byte: where every field of a header and of a record sits, what a reader accepts, and how
    it stops on a file that was cut. */
module RawLayout {
  import opened Bytes
  import opened RawFormat

  // ---- words ----

  /** The value of four bytes, least significant first. */
  function Value4(s: seq<Byte>): nat
    requires |s| == 4
  {
    (s[0] as int) + 0x100 * (s[1] as int) + 0x1_0000 * (s[2] as int) + 0x100_0000 * (s[3] as int)
  }

  function Value8(s: seq<Byte>): nat
    requires |s| == 8
  {
    Value4(s[..4]) + 0x1_0000_0000 * Value4(s[4..])
  }

  lemma FourBytes(s: seq<Byte>)
    requires |s| == 4
    ensures FromLe(s) == Value4(s)
  {
    assert s[1..][1..] == s[2..] && s[2..][1..] == s[3..] && s[3..][1..] == [];
    assert FromLe(s[3..]) == s[3];
    assert FromLe(s[2..]) == s[2] + 256 * FromLe(s[3..]);
    assert FromLe(s[1..]) == s[1] + 256 * FromLe(s[2..]);
  }

  lemma FromLeFirst(s: seq<Byte>, b: Byte)
    ensures FromLe([b] + s) == b + 256 * FromLe(s)
  {
  }

  lemma EightBytes(s: seq<Byte>)
    requires |s| == 8
    ensures FromLe(s) == Value8(s)
  {
    var lo, hi := s[..4], s[4..];
    FourBytes(lo);
    FourBytes(hi);
    assert s == [s[0]] + ([s[1]] + ([s[2]] + ([s[3]] + hi)));
    FromLeFirst(hi, s[3]);
    FromLeFirst([s[3]] + hi, s[2]);
    FromLeFirst([s[2]] + ([s[3]] + hi), s[1]);
    FromLeFirst([s[1]] + ([s[2]] + ([s[3]] + hi)), s[0]);
  }

  /** The eight bytes written for a word have its value. */
  lemma WordBytes(w: U64)
    ensures Value8(ToLe(WORD, w)) == w
  {
    WordRoundTrip(w);
    EightBytes(ToLe(WORD, w));
  }

  lemma Digit(b: nat, x: nat)
    requires b < 256
    ensures (b + 256 * x) % 256 == b && (b + 256 * x) / 256 == x
  {
  }

  lemma SmallWord(hi: nat, lo: nat)
    requires lo < 256 && hi < 256
    ensures ToLe(4, 256 * hi + lo) == [lo, hi, 0, 0]
  {
    Digit(lo, hi);
    Digit(hi, 0);
    assert ToLe(3, hi) == [hi] + ToLe(2, 0);
    assert ToLe(2, 0) == [0] + ToLe(1, 0);
  }

  lemma {:induction false} ToLeOf(s: seq<Byte>)
    ensures ToLe(|s|, FromLe(s)) == s
  {
    if s == [] {
    } else {
      ToLeOf(s[1..]);
      Digit(s[0], FromLe(s[1..]));
    }
  }

  // ---- the file header ----

  lemma MagicWord()
    ensures ToLe(HALF, TRACE_FORMAT_MAGIC) == [0x43, 0x53, 0x54, 0x46]
  {
    FourBytes([0x43, 0x53, 0x54, 0x46]);
    ToLeOf([0x43, 0x53, 0x54, 0x46]);
  }

  /** "CSTF", the version, the vCPU, the architecture, the two flags, the value cap and a zero. */
  lemma HeaderBytes(vcpu: nat, arch: Byte, l: Layout)
    requires vcpu < 16
    ensures FileHeader(vcpu, arch, l)
            == [0x43, 0x53, 0x54, 0x46] + [3, 0, 0, 0] + [vcpu, 0, 0, 0]
               + [arch, (if l.hasPa then 1 else 0) + (if l.hasValues then 2 else 0), if l.hasValues then 16 else 0, 0]
  {
    SmallWord(0, vcpu);
    SmallWord(0, TRACE_FORMAT_VER);
    MagicWord();
  }

  /** What a reader accepts: sixteen bytes, the magic, version 2 or 3, and in version 3 an architecture it knows. */
  predicate Acceptable(s: seq<Byte>)
  {
    && |s| >= 16 && s[..4] == [0x43, 0x53, 0x54, 0x46]
    && s[4] in {2, 3} && s[5..8] == [0, 0, 0]
    && (s[4] == 3 ==> s[12] in {0, 1})
  }

  lemma MagicBytes(s: seq<Byte>)
    requires |s| >= 16
    ensures FromLe(s[..4]) == TRACE_FORMAT_MAGIC <==> s[..4] == [0x43, 0x53, 0x54, 0x46]
  {
    FourBytes(s[..4]);
  }

  lemma VersionBytes(s: seq<Byte>)
    requires |s| >= 16
    ensures FromLe(s[4..8]) in {2, 3} <==> s[4] in {2, 3} && s[5..8] == [0, 0, 0]
    ensures FromLe(s[4..8]) in {2, 3} ==> FromLe(s[4..8]) == s[4]
  {
    FourBytes(s[4..8]);
    assert s[4..8] == [s[4], s[5], s[6], s[7]] && s[5..8] == [s[5], s[6], s[7]];
  }

  /** A file is opened exactly if its header is acceptable. Version 2 has no architecture byte and no flags: such a
      trace is x86-64, without physical addresses, with values. The first thing that is wrong is reported. */
  lemma HeaderMeaning(s: seq<Byte>)
    ensures ReadHeader(s).Opened? <==> Acceptable(s)
    ensures Acceptable(s) ==>
              var h := ReadHeader(s);
              && h.version == s[4]
              && h.vcpu == Value4(s[8..12])
              && (s[4] == 2 ==> h.arch == 0 && !h.layout.hasPa && h.layout.hasValues)
              && (s[4] == 3 ==> h.arch == s[12] && (h.layout.hasPa <==> s[13] % 2 == 1)
                                && (h.layout.hasValues <==> s[13] % 4 >= 2))
    ensures ReadHeader(s) == Refused(ShortHeader) <==> |s| < 16
    ensures ReadHeader(s) == Refused(BadMagic) <==> |s| >= 16 && s[..4] != [0x43, 0x53, 0x54, 0x46]
    ensures ReadHeader(s) == Refused(BadArch)
            <==> |s| >= 16 && s[..8] == [0x43, 0x53, 0x54, 0x46, 3, 0, 0, 0] && s[12] > 1
  {
    if |s| >= 16 {
      MagicBytes(s);
      VersionBytes(s);
      FourBytes(s[8..12]);
      assert s[..8] == s[..4] + [s[4]] + s[5..8];
    }
  }

  // ---- a record ----

  lemma PackedWord(vcpu: nat, privilege: nat, n: nat, ops: nat)
    requires vcpu < 16 && privilege < 2 && n < 16 && ops < 8
    ensures EncodeHeader(vcpu, privilege, n, ops) == 256 * (n / 8 + 2 * ops) + (vcpu + 16 * privilege + 32 * (n % 8))
  {
    assert vcpu % 16 == vcpu && privilege % 2 == privilege && n % 16 == n && ops % 8 == ops;
    assert n == 8 * (n / 8) + n % 8;
  }

  /** A record: vCPU, privilege, instruction size and operation count packed into the first two of four bytes, the
      instruction pointer, the instruction, and the operations. */
  lemma RecordBytes(l: Layout, r: RawRecord)
    requires ValidRecord(l, r)
    ensures var s, n := Serialize(l, r), |r.insn|;
            && |s| >= 12 + n
            && s[..4] == [r.vcpu + 16 * r.privilege + 32 * (n % 8), n / 8 + 2 * |r.ops|, 0, 0]
            && Value8(s[4..12]) == r.ip && s[12..12 + n] == r.insn && s[12 + n..] == SerializeOps(l, r.ops)
  {
    RecordParts(l, r, []);
    assert Serialize(l, r) + [] == Serialize(l, r);
    PackedWord(r.vcpu, r.privilege, |r.insn|, |r.ops|);
    SmallWord(|r.insn| / 8 + 2 * |r.ops|, r.vcpu + 16 * r.privilege + 32 * (|r.insn| % 8));
    WordBytes(r.ip);
  }

  /** An operation: address, physical address if the layout has one, size, flags, and the value if flag 1 is set. */
  lemma OpBytes(l: Layout, op: MemOp)
    requires ValidOp(l, op)
    ensures var s, h := SerializeOp(l, op), if l.hasPa then 18 else 10;
            && |s| >= h
            && Value8(s[..8]) == op.addr && (l.hasPa ==> Value8(s[8..16]) == op.paddr)
            && s[h - 2] == op.size && s[h - 1] == op.flags && s[h..] == op.value
  {
    var head := OpHeader(l, op);
    WordBytes(op.addr);
    WordBytes(op.paddr);
    HeaderParts(l, op);
    assert SerializeOp(l, op) == head + op.value;
    Within(head, op.value, 0, 8);
    if l.hasPa {
      Within(head, op.value, 8, 16);
    }
  }

  lemma Within(a: seq<Byte>, b: seq<Byte>, i: nat, j: nat)
    requires i <= j <= |a|
    ensures (a + b)[i..j] == a[i..j] && (a + b)[..j] == a[..j] && (a + b)[|a|..] == b
  {
  }

  lemma HeaderParts(l: Layout, op: MemOp)
    ensures var head, h := OpHeader(l, op), if l.hasPa then 18 else 10;
            && |head| == h
            && head[..8] == ToLe(WORD, op.addr) && (l.hasPa ==> head[8..16] == ToLe(WORD, op.paddr))
            && head[h - 2] == op.size && head[h - 1] == op.flags
  {
  }

  // ---- what a reader makes of bytes ----

  /** Reading is the other direction: what was read, written again, gives the bytes that were consumed. */
  lemma OpRewritten(l: Layout, s: seq<Byte>)
    requires ReadOp(l, s).Got?
    ensures var op, k := ReadOp(l, s).value, ReadOp(l, s).size;
            ValidOp(l, op) && SerializeOp(l, op) == s[..k]
  {
    var op, h := ReadOp(l, s).value, OpHeaderSize(l);
    HeaderRewritten(l, s, op);
    if HasValue(op.flags) {
      assert s[..h + |op.value|] == s[..h] + op.value;
    } else {
      assert s[..h] + [] == s[..h];
    }
  }

  lemma HeaderRewritten(l: Layout, s: seq<Byte>, op: MemOp)
    requires |s| >= OpHeaderSize(l) && op.addr == FromLe(s[..8]) && (l.hasPa ==> op.paddr == FromLe(s[8..16]))
    requires op.size == s[OpHeaderSize(l) - 2] && op.flags == s[OpHeaderSize(l) - 1]
    ensures OpHeader(l, op) == s[..OpHeaderSize(l)]
  {
    ToLeOf(s[..8]);
    if l.hasPa {
      ToLeOf(s[8..16]);
      assert s[..18] == s[..8] + s[8..16] + [s[16], s[17]];
    } else {
      assert s[..10] == s[..8] + [] + [s[8], s[9]];
    }
  }

  lemma {:induction false} OpsRewritten(l: Layout, n: nat, s: seq<Byte>)
    requires ReadOps(l, n, s).Got?
    ensures var ops, k := ReadOps(l, n, s).value, ReadOps(l, n, s).size;
            (forall op :: op in ops ==> ValidOp(l, op)) && SerializeOps(l, ops) == s[..k]
  {
    if n == 0 {
    } else {
      var op, k := ReadOp(l, s).value, ReadOp(l, s).size;
      OpRewritten(l, s);
      OpsRewritten(l, n - 1, s[k..]);
      OneMore(l, op, ReadOps(l, n - 1, s[k..]).value, s, k, ReadOps(l, n - 1, s[k..]).size);
    }
  }

  lemma OneMore(l: Layout, op: MemOp, ops: seq<MemOp>, s: seq<Byte>, k: nat, m: nat)
    requires k <= |s| && m <= |s[k..]| && SerializeOp(l, op) == s[..k] && SerializeOps(l, ops) == s[k..][..m]
    ensures SerializeOps(l, [op] + ops) == s[..k + m]
  {
    assert ([op] + ops)[1..] == ops && s[..k + m] == s[..k] + s[k..][..m];
  }

  lemma LowFields(a: nat, q: nat)
    requires a < 256
    ensures HdrVcpu(a + 256 * q) == a % 16 && HdrPrivilege(a + 256 * q) == a / 16 % 2
  {
    var x := a / 16;
    Quotient(16, x + 16 * q, a % 16);
    assert a + 256 * q == 16 * (x + 16 * q) + a % 16;
    Quotient(2, x / 2 + 8 * q, x % 2);
  }

  lemma Quotient(d: nat, q: nat, r: nat)
    requires r < d && (d == 2 || d == 16)
    ensures (d * q + r) / d == q && (d * q + r) % d == r
  {
    if d == 2 {
      assert (2 * q + r) / 2 == q;
    } else {
      assert (16 * q + r) / 16 == q;
    }
  }

  lemma SizeField(a: nat, q: nat)
    requires a < 256
    ensures HdrInsnSize(a + 256 * q) == a / 32 + 8 * (q % 2)
  {
    assert (a + 256 * q) / 32 == a / 32 + 8 * q;
    assert q == 2 * (q / 2) + q % 2;
  }

  lemma CountField(a: nat, q: nat)
    requires a < 256
    ensures HdrNumMemOps(a + 256 * q) == q / 2 % 8
  {
    assert (a + 256 * q) / 512 == q / 2;
  }

  lemma LowByte(b: nat, rest: nat)
    ensures (b + 256 * rest) % 2 == b % 2 && (b + 256 * rest) / 2 % 8 == b / 2 % 8
  {
    var x := b / 2;
    assert (b + 256 * rest) / 2 == x + 128 * rest;
    assert x == 8 * (x / 8) + x % 8;
  }

  lemma FieldsOf(h: nat, a: nat, b: nat, rest: nat)
    requires a < 256 && h == a + 256 * (b + 256 * rest)
    ensures HdrVcpu(h) == a % 16 && HdrPrivilege(h) == a / 16 % 2
    ensures HdrInsnSize(h) == a / 32 + 8 * (b % 2) && HdrNumMemOps(h) == b / 2 % 8
  {
    LowFields(a, b + 256 * rest);
    SizeField(a, b + 256 * rest);
    CountField(a, b + 256 * rest);
    LowByte(b, rest);
  }

  /** The reader's four fields, in the bytes. */
  lemma HeadFields(s: seq<Byte>)
    requires |s| >= 4
    ensures var h := FromLe(s[..4]);
            && HdrVcpu(h) == s[0] % 16 && HdrPrivilege(h) == s[0] / 16 % 2
            && HdrInsnSize(h) == s[0] / 32 + 8 * (s[1] % 2) && HdrNumMemOps(h) == s[1] / 2 % 8
  {
    FourBytes(s[..4]);
    FieldsOf(FromLe(s[..4]), s[0], s[1], (s[2] as int) + 0x100 * (s[3] as int));
  }

  lemma SplitFirst(a: nat)
    requires a < 256
    ensures a % 16 + 16 * (a / 16 % 2) + 32 * (a / 32) == a && a / 32 < 8
  {
  }

  lemma SplitSecond(b: nat)
    ensures b % 2 + 2 * (b / 2 % 8) == b % 16
  {
  }

  lemma SplitSize(x: nat, y: nat)
    requires x < 8 && y < 2
    ensures (x + 8 * y) % 8 == x && (x + 8 * y) / 8 == y
  {
  }

  /** What was read, in the bytes. */
  lemma ReadParts(l: Layout, s: seq<Byte>)
    requires ReadRecord(l, s).Got?
    ensures var r, k, n := ReadRecord(l, s).value, ReadRecord(l, s).size, s[0] / 32 + 8 * (s[1] % 2);
            && r.vcpu == s[0] % 16 && r.privilege == s[0] / 16 % 2 && |r.insn| == n && |r.ops| == s[1] / 2 % 8
            && 12 + n <= k <= |s| && r.ip == FromLe(s[4..12]) && r.insn == s[12..12 + n]
            && (forall op :: op in r.ops ==> ValidOp(l, op)) && SerializeOps(l, r.ops) == s[12 + n..][..k - 12 - n]
  {
    HeadFields(s);
    OpsRewritten(l, s[1] / 2 % 8, s[12 + HdrInsnSize(FromLe(s[..4]))..]);
  }

  lemma HeadAgain(l: Layout, r: RawRecord, a: Byte, b: Byte)
    requires ValidRecord(l, r) && r.vcpu == a % 16 && r.privilege == a / 16 % 2
    requires |r.insn| == a / 32 + 8 * (b % 2) && |r.ops| == b / 2 % 8
    ensures |Serialize(l, r)| >= 4 && Serialize(l, r)[..4] == [a, b % 16, 0, 0]
  {
    RecordBytes(l, r);
    SplitFirst(a);
    SplitSecond(b);
    SplitSize(a / 32, b % 2);
  }

  lemma BodyAgain(l: Layout, r: RawRecord, s: seq<Byte>, k: nat)
    requires var n := |r.insn|;
             && 12 + n <= k <= |s| && r.ip == FromLe(s[4..12]) && r.insn == s[12..12 + n]
             && SerializeOps(l, r.ops) == s[12 + n..][..k - 12 - n]
    ensures Serialize(l, r)[4..] == s[4..k]
  {
    ToLeOf(s[4..12]);
    ThreeParts(s, 4, 12, 12 + |r.insn|, k);
    BodyParts(l, r);
  }

  lemma BodyParts(l: Layout, r: RawRecord)
    ensures |Serialize(l, r)| >= 4
    ensures Serialize(l, r)[4..] == ToLe(WORD, r.ip) + r.insn + SerializeOps(l, r.ops)
  {
  }

  lemma ThreeParts(s: seq<Byte>, a: nat, b: nat, c: nat, d: nat)
    requires a <= b <= c <= d <= |s|
    ensures s[a..d] == s[a..b] + s[b..c] + s[c..][..d - c]
  {
  }

  /** A record that is read is one that could have been written, up to the four unused bits of its second byte and the
      two unused bytes after it, which no reader looks at. */
  lemma RecordRewritten(l: Layout, s: seq<Byte>)
    requires ReadRecord(l, s).Got?
    ensures var r, k := ReadRecord(l, s).value, ReadRecord(l, s).size;
            && ValidRecord(l, r)
            && Serialize(l, r) == [s[0], s[1] % 16, 0, 0] + s[4..k]
  {
    var r, k := ReadRecord(l, s).value, ReadRecord(l, s).size;
    ReadParts(l, s);
    HeadAgain(l, r, s[0], s[1]);
    BodyAgain(l, r, s, k);
    assert Serialize(l, r) == Serialize(l, r)[..4] + Serialize(l, r)[4..];
  }

  // ---- a file that was cut, or read with the wrong flags ----

  lemma {:induction false} OpsThenStop(l: Layout, ops: seq<MemOp>, more: nat, tail: seq<Byte>)
    requires (forall op :: op in ops ==> ValidOp(l, op)) && more > 0 && ReadOp(l, tail).Stopped?
    ensures ReadOps(l, |ops| + more, SerializeOps(l, ops) + tail) == Stopped(ReadOp(l, tail).why)
  {
    if ops == [] {
      assert SerializeOps(l, ops) + tail == tail;
    } else {
      var one, rest := SerializeOp(l, ops[0]), SerializeOps(l, ops[1..]) + tail;
      assert SerializeOps(l, ops) + tail == one + rest;
      OpRoundTrip(l, ops[0], rest);
      assert (one + rest)[|one|..] == rest;
      OpsThenStop(l, ops[1..], more, tail);
    }
  }

  /** A stop in the operations is the record's. */
  lemma HeadThenStop(l: Layout, written: Layout, r: RawRecord, body: seq<Byte>)
    requires ValidRecord(written, r) && ReadOps(l, |r.ops|, body).Stopped?
    ensures ReadRecord(l, RecordHead(r) + body) == Stopped(ReadOps(l, |r.ops|, body).why)
  {
    var s, n := RecordHead(r) + body, |r.insn|;
    var h := EncodeHeader(r.vcpu, r.privilege, n, |r.ops|);
    HeaderWordRoundTrip(h);
    HeaderFields(r.vcpu, r.privilege, n, |r.ops|);
    assert s[..4] == ToLe(HALF, h) && s[12 + n..] == body;
  }

  /** A record cut before its operations. Fewer than four bytes are taken for the end of the trace. */
  lemma CutInHead(l: Layout, r: RawRecord, k: nat)
    requires ValidRecord(l, r) && k < 12 + |r.insn|
    ensures k <= |Serialize(l, r)|
    ensures ReadRecord(l, Serialize(l, r)[..k])
            == Stopped(if k < 4 then End else if k < 12 then TruncatedIp else TruncatedInsn)
  {
    var s, n := Serialize(l, r)[..k], |r.insn|;
    RecordParts(l, r, []);
    assert Serialize(l, r) + [] == Serialize(l, r);
    if k >= 4 {
      assert s[..4] == Serialize(l, r)[..4];
      HeaderWordRoundTrip(EncodeHeader(r.vcpu, r.privilege, n, |r.ops|));
      HeaderFields(r.vcpu, r.privilege, n, |r.ops|);
    }
  }

  lemma CutOp(l: Layout, op: MemOp, m: nat)
    requires ValidOp(l, op) && m < |SerializeOp(l, op)|
    ensures ReadOp(l, SerializeOp(l, op)[..m]) == Stopped(if m < OpHeaderSize(l) then TruncatedOp else TruncatedValue)
  {
  }

  lemma {:induction false} OpsSplit(l: Layout, a: seq<MemOp>, b: seq<MemOp>)
    ensures SerializeOps(l, a + b) == SerializeOps(l, a) + SerializeOps(l, b)
  {
    if a == [] {
      assert a + b == b;
    } else {
      assert (a + b)[1..] == a[1..] + b;
      OpsSplit(l, a[1..], b);
    }
  }

  /** Where operation j of a record starts. */
  function OpStart(l: Layout, r: RawRecord, j: nat): nat
    requires j <= |r.ops|
  {
    12 + |r.insn| + |SerializeOps(l, r.ops[..j])|
  }

  /** Operation j sits there, between those before and those after it. */
  lemma OpPlace(l: Layout, r: RawRecord, j: nat, m: nat)
    requires j < |r.ops| && m <= |SerializeOp(l, r.ops[j])|
    ensures OpStart(l, r, j) + m <= |Serialize(l, r)|
    ensures Serialize(l, r)[..OpStart(l, r, j) + m]
            == RecordHead(r) + (SerializeOps(l, r.ops[..j]) + SerializeOp(l, r.ops[j])[..m])
  {
    var before, op, after := r.ops[..j], SerializeOp(l, r.ops[j]), SerializeOps(l, r.ops[j + 1..]);
    assert r.ops == before + r.ops[j..] && r.ops[j..][1..] == r.ops[j + 1..];
    OpsSplit(l, before, r.ops[j..]);
    TakePast(RecordHead(r), SerializeOps(l, before), op, after, m);
  }

  lemma TakePast(a: seq<Byte>, b: seq<Byte>, c: seq<Byte>, d: seq<Byte>, m: nat)
    requires m <= |c|
    ensures (a + (b + (c + d)))[..|a| + |b| + m] == a + (b + c[..m])
  {
  }

  lemma StopInOps(l: Layout, ops: seq<MemOp>, j: nat, m: nat)
    requires (forall op :: op in ops ==> ValidOp(l, op)) && j < |ops| && m < |SerializeOp(l, ops[j])|
    ensures ReadOps(l, |ops|, SerializeOps(l, ops[..j]) + SerializeOp(l, ops[j])[..m])
            == Stopped(if m < OpHeaderSize(l) then TruncatedOp else TruncatedValue)
  {
    assert ops[j] in ops;
    CutOp(l, ops[j], m);
    OpsThenStop(l, ops[..j], |ops| - j, SerializeOp(l, ops[j])[..m]);
  }

  /** A record cut inside operation j. */
  lemma CutInOp(l: Layout, r: RawRecord, j: nat, m: nat)
    requires ValidRecord(l, r) && j < |r.ops| && m < |SerializeOp(l, r.ops[j])|
    ensures OpStart(l, r, j) + m < |Serialize(l, r)|
    ensures ReadRecord(l, Serialize(l, r)[..OpStart(l, r, j) + m])
            == Stopped(if m < OpHeaderSize(l) then TruncatedOp else TruncatedValue)
  {
    OpPlace(l, r, j, m + 1);
    OpPlace(l, r, j, m);
    StopInOps(l, r.ops, j, m);
    HeadThenStop(l, l, r, SerializeOps(l, r.ops[..j]) + SerializeOp(l, r.ops[j])[..m]);
  }

  lemma StrayValue(l: Layout, op: MemOp, rest: seq<Byte>)
    requires HasValue(op.flags)
    ensures ReadOp(l.(hasValues := false), SerializeOp(l, op) + rest) == Stopped(CorruptOp)
  {
    assert (SerializeOp(l, op) + rest)[OpHeaderSize(l) - 1] == op.flags;
  }

  lemma {:induction false} StrayInOps(l: Layout, ops: seq<MemOp>, j: nat, rest: seq<Byte>)
    requires (forall op :: op in ops ==> ValidOp(l, op)) && j < |ops| && HasValue(ops[j].flags)
    requires forall i :: 0 <= i < j ==> !HasValue(ops[i].flags)
    ensures ReadOps(l.(hasValues := false), |ops|, SerializeOps(l, ops) + rest) == Stopped(CorruptOp)
    decreases j
  {
    var tail := SerializeOps(l, ops[1..]) + rest;
    assert SerializeOps(l, ops) + rest == SerializeOp(l, ops[0]) + tail;
    if j == 0 {
      StrayValue(l, ops[0], tail);
    } else {
      assert ops[0] in ops;
      OpRoundTrip(l.(hasValues := false), ops[0], tail);
      StrayInOps(l, ops[1..], j - 1, rest);
      assert (SerializeOp(l, ops[0]) + tail)[|SerializeOp(l, ops[0])|..] == tail;
    }
  }

  /** A value in a file whose header says there are none stops the reader at the first operation that has one. */
  lemma ValueNotAnnounced(l: Layout, r: RawRecord, j: nat, rest: seq<Byte>)
    requires ValidRecord(l, r) && j < |r.ops| && HasValue(r.ops[j].flags)
    requires forall i :: 0 <= i < j ==> !HasValue(r.ops[i].flags)
    ensures ReadRecord(l.(hasValues := false), Serialize(l, r) + rest) == Stopped(CorruptOp)
  {
    StrayInOps(l, r.ops, j, rest);
    HeadThenStop(l.(hasValues := false), l, r, SerializeOps(l, r.ops) + rest);
    assert Serialize(l, r) + rest == RecordHead(r) + (SerializeOps(l, r.ops) + rest);
  }

  /** A record without an instruction is not one. */
  lemma NoInstruction(l: Layout, s: seq<Byte>)
    ensures ReadRecord(l, s) == Stopped(BadSize) <==> |s| >= 4 && s[0] < 32 && s[1] % 2 == 0
  {
    if |s| >= 4 {
      HeadFields(s);
    }
  }
}
