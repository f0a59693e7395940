/** What the idle filter conserves, and what filtering its own output does. */
module IdleLaws {
  import opened Bytes
  import opened IdleFilter
  import opened IdleSpec
  import opened RawFormat
  import RawLayout

  // ---- the counters ----

  predicate IsUserHlt(f: Frame)
  {
    IsUser(f) && IsHlt(f)
  }

  predicate HltsPrivileged(fs: seq<Frame>)
  {
    forall f :: f in fs && IsHlt(f) ==> !IsUser(f)
  }

  lemma {:induction false} CountKinds(fs: seq<Frame>)
    ensures Count(fs, IsUser) == Count(fs, IsWake) + Count(fs, IsUserHlt)
    ensures |fs| == Count(fs, IsUser) + Count(fs, IsKernel)
  {
    if fs == [] {
    } else {
      CountKinds(fs[..|fs| - 1]);
    }
  }

  lemma NoUserHlts(fs: seq<Frame>)
    ensures Count(fs, IsUserHlt) == 0 <==> HltsPrivileged(fs)
  {
    CountNone(fs, IsUserHlt);
  }

  lemma {:induction false} PartMembers(fs: seq<Frame>, n: nat, idle: bool)
    requires n <= |fs|
    ensures forall f :: f in Part(fs, n, idle) ==> f in fs
  {
    if n == 0 {
    } else {
      PartMembers(fs, n - 1, idle);
    }
  }

  /** The exact balance of the reported counters: what is off is exactly the user-mode HLTs, which the
      program counts as kernel when it replays them and not at all when it drops them. */
  lemma ExactBalance(fs: seq<Frame>, st: Stats)
    requires st == StatsOf(fs, Filtered(fs), Removed(fs))
    ensures st.inUser == st.outUser + Count(fs, IsUserHlt)
    ensures st.inKernel + Count(Filtered(fs), IsUserHlt) == st.outKernel + st.idleDiscarded
    ensures st.inTotal == st.outTotal + st.idleDiscarded + Count(Removed(fs), IsUserHlt)
  {
    var n := |fs|;
    assert fs[..n] == fs;
    CountKinds(fs);
    CountKinds(Filtered(fs));
    CountKinds(Removed(fs));
    WakesKept(fs);
    RemovedKinds(fs, n);
    PartsConserve(fs, n, IsKernel);
    PartsConserve(fs, n, IsUserHlt);
  }

  /** The counters balance for user and kernel exactly when every HLT (every kept HLT, every dropped HLT)
      is privileged. */
  lemma BalanceConditions(fs: seq<Frame>, st: Stats)
    requires st == StatsOf(fs, Filtered(fs), Removed(fs))
    ensures st.inUser == st.outUser <==> HltsPrivileged(fs)
    ensures st.inKernel == st.outKernel + st.idleDiscarded <==> HltsPrivileged(Filtered(fs))
    ensures st.inTotal == st.outTotal + st.idleDiscarded <==> HltsPrivileged(Removed(fs))
  {
    ExactBalance(fs, st);
    NoUserHlts(fs);
    NoUserHlts(Filtered(fs));
    NoUserHlts(Removed(fs));
  }

  /** HLT is a privileged instruction; when the trace agrees, nothing is unaccounted for. */
  lemma BalanceWhenPrivileged(fs: seq<Frame>, st: Stats)
    requires st == StatsOf(fs, Filtered(fs), Removed(fs)) && HltsPrivileged(fs)
    ensures st.inUser == st.outUser
    ensures st.inKernel == st.outKernel + st.idleDiscarded
    ensures st.inTotal == st.outTotal + st.idleDiscarded
  {
    PartMembers(fs, |fs|, false);
    PartMembers(fs, |fs|, true);
    BalanceConditions(fs, st);
  }

  const PLAIN: Layout := Layout(false, false)
  const HLT_RECORD: RawRecord := RawRecord(0, 0, 0x1000, [HLT_OPCODE], [])
  const USER_HLT: Frame := Frame(Serialize(PLAIN, HLT_RECORD), HLT_RECORD)

  lemma NoneOfAKind(fs: seq<Frame>, p: Frame -> bool)
    requires Count(fs, p) == 0
    ensures Count(Removed(fs), p) == 0
  {
    PartsConserve(fs, |fs|, p);
    assert fs[..|fs|] == fs;
  }

  lemma TwoUserHlts()
    ensures var fs := [USER_HLT, USER_HLT];
            && Filtered(fs) == [USER_HLT] && Count([USER_HLT], IsWake) == 0
            && Count(fs, IsUser) == 2 && Count(fs, IsKernel) == 0
  {
    var f := USER_HLT;
    assert [f, f] == [f] + [f] && [f] == [] + [f];
    CountSnoc([f], f, IsUser);
    CountSnoc([f], f, IsKernel);
    FilteredNow([]);
    FilteredSnoc([], f);
    FilteredSnoc([f], f);
  }

  lemma TwoHltsUnbalance()
    ensures var fs := [USER_HLT, USER_HLT];
            StatsOf(fs, Filtered(fs), Removed(fs)) == Stats(2, 2, 0, 1, 0, 1, 0)
  {
    TwoUserHlts();
    NoneOfAKind([USER_HLT, USER_HLT], IsKernel);
  }

  function TwoHltFile(): seq<Byte>
  {
    FileHeader(0, 0, PLAIN) + SerializeAll(PLAIN, [HLT_RECORD, HLT_RECORD])
  }

  lemma TwoHltsRead()
    ensures ReadHeader(TwoHltFile()) == Opened(3, 0, 0, PLAIN)
    ensures Scan(PLAIN, TwoHltFile()[FILE_HEADER_SIZE..]) == Scanned([USER_HLT, USER_HLT], End)
  {
    var rs := [HLT_RECORD, HLT_RECORD];
    var body := SerializeAll(PLAIN, rs);
    FileHeaderRoundTrip(0, 0, PLAIN, body);
    assert TwoHltFile()[FILE_HEADER_SIZE..] == body;
    ScanRoundTrip(PLAIN, rs);
    assert Framed(PLAIN, rs) == [USER_HLT, USER_HLT];
  }

  /** A file of two HLTs that claim to be user instructions: the filter drops the first and counts it nowhere,
      keeps the second and counts it as kernel, and none of the three balances holds. */
  lemma UserHltsUnbalance(r: FilterResult)
    requires Filters(TwoHltFile(), r)
    ensures r.Done? && r.stats == Stats(2, 2, 0, 1, 0, 1, 0)
  {
    TwoHltsRead();
    TwoHltsUnbalance();
  }

  // ---- the output is a trace again ----

  lemma ReadOpLocal(l: Layout, s: seq<Byte>, op: MemOp, n: nat, rest: seq<Byte>)
    requires ReadOp(l, s) == Got(op, n)
    ensures n <= 82 && ReadOp(l, s[..n] + rest) == Got(op, n)
  {
    var t, h := s[..n] + rest, OpHeaderSize(l);
    assert t[..8] == s[..8] && (l.hasPa ==> t[8..16] == s[8..16]);
    assert t[h - 2] == s[h - 2] && t[h - 1] == s[h - 1];
    assert t[h..n] == s[h..n];
  }

  lemma PrefixSplit(s: seq<Byte>, k: nat, m: nat, rest: seq<Byte>)
    requires k + m <= |s|
    ensures s[..k + m] + rest == s[..k] + (s[k..][..m] + rest)
    ensures (s[..k] + (s[k..][..m] + rest))[k..] == s[k..][..m] + rest
  {
  }

  lemma ReadOpsCons(l: Layout, n: nat, s: seq<Byte>, op: MemOp, k: nat, more: seq<MemOp>, m: nat)
    requires n > 0 && ReadOp(l, s) == Got(op, k) && ReadOps(l, n - 1, s[k..]) == Got(more, m)
    ensures ReadOps(l, n, s) == Got([op] + more, k + m)
  {
  }

  /** The first operation and the others. */
  lemma ReadOpsSplit(l: Layout, n: nat, s: seq<Byte>, ops: seq<MemOp>, size: nat)
    returns (op: MemOp, k: nat, more: seq<MemOp>, m: nat)
    requires n > 0 && ReadOps(l, n, s) == Got(ops, size)
    ensures ReadOp(l, s) == Got(op, k) && k <= |s| && ReadOps(l, n - 1, s[k..]) == Got(more, m)
    ensures ops == [op] + more && size == k + m && k <= 82
  {
    op, k := ReadOp(l, s).value, ReadOp(l, s).size;
    more, m := ReadOps(l, n - 1, s[k..]).value, ReadOps(l, n - 1, s[k..]).size;
  }

  /** One more operation in front of operations that read locally. */
  lemma ReadOpsStep(l: Layout, n: nat, s: seq<Byte>, op: MemOp, k: nat, more: seq<MemOp>, m: nat, rest: seq<Byte>)
    requires n > 0 && k + m <= |s| && ReadOp(l, s) == Got(op, k)
    requires ReadOps(l, n - 1, s[k..][..m] + rest) == Got(more, m)
    ensures ReadOps(l, n, s[..k + m] + rest) == Got([op] + more, k + m)
  {
    var left := s[k..][..m] + rest;
    ReadOpLocal(l, s, op, k, left);
    PrefixSplit(s, k, m, rest);
    ReadOpsCons(l, n, s[..k] + left, op, k, more, m);
  }

  lemma {:induction false} ReadOpsLocal(l: Layout, n: nat, s: seq<Byte>, ops: seq<MemOp>, size: nat, rest: seq<Byte>)
    requires ReadOps(l, n, s) == Got(ops, size)
    ensures size <= 82 * n && ReadOps(l, n, s[..size] + rest) == Got(ops, size)
    decreases n, 0
  {
    if n == 0 {
    } else {
      var op, k, more, m := ReadOpsSplit(l, n, s, ops, size);
      ReadOpsLocalRest(l, n, s, op, k, more, m, rest);
    }
  }

  lemma {:induction false} ReadOpsLocalRest(l: Layout, n: nat, s: seq<Byte>, op: MemOp, k: nat, more: seq<MemOp>,
                                            m: nat, rest: seq<Byte>)
    requires n > 0 && k <= |s| && k <= 82 && ReadOp(l, s) == Got(op, k) && ReadOps(l, n - 1, s[k..]) == Got(more, m)
    ensures k + m <= |s| && k + m <= 82 * n
    ensures ReadOps(l, n, s[..k + m] + rest) == Got([op] + more, k + m)
    decreases n - 1, 1
  {
    ReadOpsLocal(l, n - 1, s[k..], more, m, rest);
    ReadOpsStep(l, n, s, op, k, more, m, rest);
  }

  /** Where the parts of a record sit does not depend on what follows it. */
  lemma HeadLocal(s: seq<Byte>, n: nat, k: nat, rest: seq<Byte>)
    requires 12 + n + k <= |s|
    ensures var t := s[..12 + n + k] + rest;
            && t[..4] == s[..4] && t[4..12] == s[4..12] && t[12..12 + n] == s[12..12 + n]
            && t[12 + n..] == s[12 + n..][..k] + rest
  {
  }

  lemma RecordFromParts(l: Layout, t: seq<Byte>, n: nat, ops: seq<MemOp>, k: nat)
    requires |t| >= 12 + n && n > 0 && n == HdrInsnSize(FromLe(t[..4]))
    requires ReadOps(l, HdrNumMemOps(FromLe(t[..4])), t[12 + n..]) == Got(ops, k)
    ensures ReadRecord(l, t) == Got(RawRecord(HdrVcpu(FromLe(t[..4])), HdrPrivilege(FromLe(t[..4])),
                                              ReadU64(t[4..12]), t[12..12 + n], ops), 12 + n + k)
  {
  }

  lemma PartsFromRecord(l: Layout, s: seq<Byte>, rec: RawRecord, size: nat)
    requires ReadRecord(l, s) == Got(rec, size)
    ensures var n, h := |rec.insn|, FromLe(s[..4]);
            && 12 + n <= size <= |s| && n > 0 && n == HdrInsnSize(h)
            && ReadOps(l, HdrNumMemOps(h), s[12 + n..]) == Got(rec.ops, size - 12 - n)
            && rec == RawRecord(HdrVcpu(h), HdrPrivilege(h), ReadU64(s[4..12]), s[12..12 + n], rec.ops)
  {
  }

  /** A record is read from its own bytes alone, and those fit the filter's scratch buffer. */
  lemma ReadRecordLocal(l: Layout, s: seq<Byte>, rec: RawRecord, size: nat, rest: seq<Byte>)
    requires ReadRecord(l, s) == Got(rec, size)
    ensures size <= MAX_RECORD_SIZE && ReadRecord(l, s[..size] + rest) == Got(rec, size)
  {
    var n := |rec.insn|;
    var k := size - 12 - n;
    PartsFromRecord(l, s, rec, size);
    HeadLocal(s, n, k, rest);
    ReadOpsLocal(l, HdrNumMemOps(FromLe(s[..4])), s[12 + n..], rec.ops, k, rest);
    RecordFromParts(l, s[..size] + rest, n, rec.ops, k);
  }

  /** The bytes of a frame are a record whatever follows them. */
  ghost predicate Whole(l: Layout, f: Frame)
  {
    forall rest: seq<Byte> {:trigger f.raw + rest} :: ReadRecord(l, f.raw + rest) == Got(f.rec, |f.raw|)
  }

  ghost predicate AllWhole(l: Layout, fs: seq<Frame>)
  {
    forall f :: f in fs ==> Whole(l, f)
  }

  lemma {:induction false} ScanWhole(l: Layout, s: seq<Byte>)
    ensures AllWhole(l, Scan(l, s).frames)
    decreases |s|
  {
    var r := ReadRecord(l, s);
    if r.Stopped? {
    } else {
      var f := Frame(s[..r.size], r.value);
      forall rest: seq<Byte> ensures ReadRecord(l, f.raw + rest) == Got(f.rec, |f.raw|) {
        ReadRecordLocal(l, s, r.value, r.size, rest);
      }
      ScanWhole(l, s[r.size..]);
    }
  }

  /** Writing whole frames one after another and reading them back gives those frames. */
  lemma {:induction false} ScanRawBytes(l: Layout, fs: seq<Frame>)
    requires AllWhole(l, fs)
    ensures Scan(l, RawBytes(fs)) == Scanned(fs, End)
  {
    if fs == [] {
    } else {
      var f, rest := fs[0], RawBytes(fs[1..]);
      assert Whole(l, f);
      assert ReadRecord(l, f.raw + rest) == Got(f.rec, |f.raw|);
      ScanRawBytes(l, fs[1..]);
      assert (f.raw + rest)[|f.raw|..] == rest && (f.raw + rest)[..|f.raw|] == f.raw;
    }
  }

  /** The filter's output reads back, without error, as the records it kept. */
  lemma OutputReadsBack(bytes: seq<Byte>, r: FilterResult)
    requires Filters(bytes, r) && r.Done?
    ensures ReadHeader(r.out) == ReadHeader(bytes) && |r.out| >= FILE_HEADER_SIZE
    ensures var l := ReadHeader(bytes).layout;
            Scan(l, r.out[FILE_HEADER_SIZE..])
            == Scanned(Filtered(Scan(l, bytes[FILE_HEADER_SIZE..]).frames), End)
  {
    var l := ReadHeader(bytes).layout;
    var fs := Scan(l, bytes[FILE_HEADER_SIZE..]).frames;
    assert r.out[FILE_HEADER_SIZE..] == RawBytes(Filtered(fs));
    HeaderLocal(bytes, RawBytes(Filtered(fs)));
    ScanWhole(l, bytes[FILE_HEADER_SIZE..]);
    PartMembers(fs, |fs|, false);
    ScanRawBytes(l, Filtered(fs));
  }

  lemma HeaderLocal(bytes: seq<Byte>, rest: seq<Byte>)
    requires |bytes| >= FILE_HEADER_SIZE
    ensures ReadHeader(bytes[..FILE_HEADER_SIZE] + rest) == ReadHeader(bytes)
  {
    var t := bytes[..FILE_HEADER_SIZE] + rest;
    assert t[..4] == bytes[..4] && t[4..8] == bytes[4..8] && t[8..12] == bytes[8..12];
    assert t[12] == bytes[12] && t[13] == bytes[13];
  }

  /** Filtering a filtered file reproduces it byte for byte and discards nothing. */
  lemma FilterTwice(bytes: seq<Byte>, r: FilterResult, again: FilterResult)
    requires Filters(bytes, r) && r.Done? && Filters(r.out, again)
    ensures again.Done? && again.out == r.out && again.stats.idleDiscarded == 0
  {
    OutputReadsBack(bytes, r);
    var l := ReadHeader(bytes).layout;
    var fs := Scan(l, bytes[FILE_HEADER_SIZE..]).frames;
    FilterIdempotent(fs);
    assert r.out[..FILE_HEADER_SIZE] == bytes[..FILE_HEADER_SIZE];
  }

  /** What the filter looks for, in the bytes of a record: bit 4 clear is user mode, and a HLT is a one-byte
      instruction 0xF4, in whatever mode. */
  lemma KindsInBytes(l: Layout, s: seq<Byte>)
    requires ReadRecord(l, s).Got?
    ensures var f := Frame(s[..ReadRecord(l, s).size], ReadRecord(l, s).value);
            && (IsUser(f) <==> s[0] / 16 % 2 == 0)
            && (IsHlt(f) <==> s[0] / 32 == 1 && s[1] % 2 == 0 && s[12] == 0xF4)
  {
    RawLayout.ReadParts(l, s);
  }
}
