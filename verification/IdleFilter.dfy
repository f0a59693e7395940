/** trace_filter as it runs: a growable buffer of candidate records that is dropped or replayed, proved to
    write exactly the records IdleSpec keeps, byte for byte. */
module IdleFilter {
  import opened Bytes
  import opened IdleSpec
  import opened RawFormat
  import opened TraceReader

  // ---- the idle buffer ----

  /** The byte strings that offsets and lengths cut out of data. */
  ghost function Cuts(data: seq<Byte>, offsets: seq<nat>, lengths: seq<nat>): (s: seq<seq<Byte>>)
    requires |offsets| == |lengths|
    requires forall i :: 0 <= i < |offsets| ==> offsets[i] + lengths[i] <= |data|
    ensures |s| == |offsets|
  {
    seq(|offsets|, i requires 0 <= i < |offsets| => data[offsets[i]..offsets[i] + lengths[i]])
  }

  lemma CutsSnoc(data: seq<Byte>, offsets: seq<nat>, lengths: seq<nat>, d: seq<Byte>)
    requires |offsets| == |lengths|
    requires forall i :: 0 <= i < |offsets| ==> offsets[i] + lengths[i] <= |data|
    ensures Cuts(data + d, offsets + [|data|], lengths + [|d|]) == Cuts(data, offsets, lengths) + [d]
  {
    var n := |offsets|;
    var more := Cuts(data + d, offsets + [|data|], lengths + [|d|]);
    assert more[n] == d;
    forall i | 0 <= i < n ensures more[i] == Cuts(data, offsets, lengths)[i] {
      assert (data + d)[offsets[i]..offsets[i] + lengths[i]] == data[offsets[i]..offsets[i] + lengths[i]];
    }
  }

  /** Doubled until it holds `need`. */
  method Grown(size: nat, need: nat) returns (n: nat)
    requires size > 0
    ensures n >= size && n >= need
  {
    n := size;
    while need > n
      invariant n >= size
      decreases need - n
    {
      n := n * 2;
    }
  }

  class IdleBuffer {
    var bytes: array<Byte>
    var bytesPos: nat
    var offsets: array<nat>
    var lengths: array<nat>
    var slotsUsed: nat
    var kernelCount: nat
    ghost var Repr: set<object>

    ghost predicate Sized()
      reads this
    {
      && 0 < bytes.Length && 0 < offsets.Length == lengths.Length && offsets != lengths
      && bytesPos <= bytes.Length && slotsUsed <= offsets.Length
    }

    ghost predicate Valid()
      reads this, bytes, offsets, lengths
    {
      && Repr == {this, bytes, offsets, lengths}
      && Sized()
      && forall i :: 0 <= i < slotsUsed ==> offsets[..slotsUsed][i] + lengths[..slotsUsed][i] <= bytesPos
    }

    /** The records buffered, in order. */
    ghost function Contents(): (s: seq<seq<Byte>>)
      requires Valid()
      reads this, bytes, offsets, lengths
      ensures |s| == slotsUsed
    {
      Cuts(bytes[..bytesPos], offsets[..slotsUsed], lengths[..slotsUsed])
    }

    constructor ()
      ensures Valid() && Contents() == [] && kernelCount == 0 && fresh(Repr)
    {
      bytes := new Byte[64 * 1024];
      offsets, lengths := new nat[1024], new nat[1024];
      bytesPos, slotsUsed, kernelCount := 0, 0, 0;
      new;
      Repr := {this, bytes, offsets, lengths};
    }

    /** The i-th record. */
    method Record(i: nat) returns (data: seq<Byte>)
      requires Valid() && i < slotsUsed
      ensures data == Contents()[i]
    {
      var o, n := offsets[i], lengths[i];
      assert o == offsets[..slotsUsed][i] && n == lengths[..slotsUsed][i];
      data := bytes[o..o + n];
      assert data == bytes[..bytesPos][o..o + n];
    }

    method Reset()
      requires Valid()
      modifies this`bytesPos, this`slotsUsed, this`kernelCount
      ensures Valid() && Contents() == [] && kernelCount == 0
    {
      bytesPos, slotsUsed, kernelCount := 0, 0, 0;
    }

    /** realloc the byte store so that len more bytes fit. */
    method ReserveBytes(len: nat)
      requires Valid()
      modifies this`bytes, this`Repr
      ensures Valid() && bytesPos + len <= bytes.Length && Contents() == old(Contents())
      ensures fresh(Repr - old(Repr))
    {
      if bytesPos + len > bytes.Length {
        var size := Grown(bytes.Length, bytesPos + len);
        var bigger := new Byte[size];
        var _ := CopyInto(bigger, 0, bytes[..bytesPos]);
        assert bigger[..bytesPos] == bytes[..bytesPos];
        bytes := bigger;
        Repr := {this, bytes, offsets, lengths};
      }
    }

    /** realloc both slot arrays so that one more record fits. */
    method ReserveSlot()
      requires Valid()
      modifies this`offsets, this`lengths, this`Repr
      ensures Valid() && slotsUsed < offsets.Length && Contents() == old(Contents())
      ensures fresh(Repr - old(Repr)) && bytes == old(bytes) && bytesPos == old(bytesPos)
    {
      if slotsUsed + 1 > offsets.Length {
        var size := offsets.Length * 2;
        var o, n := new nat[size], new nat[size];
        var _ := CopyInto(o, 0, offsets[..slotsUsed]);
        var _ := CopyInto(n, 0, lengths[..slotsUsed]);
        assert o[..slotsUsed] == offsets[..slotsUsed] && n[..slotsUsed] == lengths[..slotsUsed];
        offsets, lengths := o, n;
        Repr := {this, bytes, offsets, lengths};
      }
    }

    /** Store the record where there is room for it. */
    method Store(data: seq<Byte>)
      requires Valid() && bytesPos + |data| <= bytes.Length && slotsUsed < offsets.Length
      modifies this`bytesPos, this`slotsUsed, bytes, offsets, lengths
      ensures Valid() && Contents() == old(Contents()) + [data]
    {
      ghost var b, o, n := bytes[..bytesPos], offsets[..slotsUsed], lengths[..slotsUsed];
      CutsSnoc(b, o, n, data);
      var end := CopyInto(bytes, bytesPos, data);
      offsets[slotsUsed] := bytesPos;
      lengths[slotsUsed] := |data|;
      slotsUsed, bytesPos := slotsUsed + 1, end;
      assert offsets[..slotsUsed] == o + [|b|] && lengths[..slotsUsed] == n + [|data|];
      assert bytes[..bytesPos] == b + data;
    }

    /** Whatever reallocation happens, the buffer gains exactly this record. */
    method Append(data: seq<Byte>, isKernel: bool)
      requires Valid()
      modifies Repr
      ensures Valid() && Contents() == old(Contents()) + [data] && fresh(Repr - old(Repr))
      ensures kernelCount == old(kernelCount) + if isKernel then 1 else 0
    {
      ReserveBytes(|data|);
      ReserveSlot();
      Store(data);
      if isKernel {
        kernelCount := kernelCount + 1;
      }
    }
  }

  // ---- what the filter should write ----

  function RawBytes(fs: seq<Frame>): seq<Byte>
  {
    if fs == [] then [] else fs[0].raw + RawBytes(fs[1..])
  }

  lemma {:induction false} RawBytesAppend(a: seq<Frame>, b: seq<Frame>)
    ensures RawBytes(a + b) == RawBytes(a) + RawBytes(b)
  {
    if a == [] {
      assert a + b == b;
    } else {
      assert (a + b)[1..] == a[1..] + b;
      RawBytesAppend(a[1..], b);
    }
  }

  predicate IsKernel(f: Frame)
  {
    !IsUser(f)
  }

  datatype Stats = Stats(inTotal: nat, inUser: nat, inKernel: nat, outTotal: nat, outUser: nat, outKernel: nat,
                         idleDiscarded: nat)

  /** The counters after fs, with `out` written and `gone` removed. Of what is written, the wake-ups count as
      user and all else as kernel. */
  function StatsOf(fs: seq<Frame>, out: seq<Frame>, gone: seq<Frame>): Stats
  {
    Stats(|fs|, Count(fs, IsUser), Count(fs, IsKernel),
          |out|, Count(out, IsWake), |out| - Count(out, IsWake), Count(gone, IsKernel))
  }

  datatype FilterError = HeaderRefused(error: HeaderError) | ArchUnsupported

  /** Crashed is exit(1) on a corrupt value flag: the output was not finished. */
  datatype FilterResult = Rejected(why: FilterError) | Crashed | Done(out: seq<Byte>, stats: Stats)

  /** What filtering the records of a file must do. */
  ghost predicate FiltersStream(header: seq<Byte>, sc: Scanned, r: FilterResult)
  {
    if sc.stop == CorruptOp then r == Crashed
    else r.Done? && r.out == header + RawBytes(Filtered(sc.frames))
         && r.stats == StatsOf(sc.frames, Filtered(sc.frames), Removed(sc.frames))
  }

  /** What filtering a file must do. */
  ghost predicate Filters(bytes: seq<Byte>, r: FilterResult)
  {
    var h := ReadHeader(bytes);
    if h.Refused? then r == Rejected(HeaderRefused(h.error))
    else if h.arch == 1 then r == Rejected(ArchUnsupported)
    else FiltersStream(bytes[..FILE_HEADER_SIZE], Scan(h.layout, bytes[FILE_HEADER_SIZE..]), r)
  }

  // ---- the program ----

  ghost function Raws(fs: seq<Frame>): (s: seq<seq<Byte>>)
    ensures |s| == |fs|
  {
    seq(|fs|, i requires 0 <= i < |fs| => fs[i].raw)
  }

  lemma RawsSnoc(fs: seq<Frame>, f: Frame)
    ensures Raws(fs + [f]) == Raws(fs) + [f.raw]
  {
  }

  /** The buffer holds exactly the candidate run. */
  ghost predicate Buffers(idle: IdleBuffer, run: seq<Frame>)
    reads idle, idle.bytes, idle.offsets, idle.lengths
  {
    idle.Valid() && idle.Contents() == Raws(run) && idle.kernelCount == Count(run, IsKernel)
  }

  datatype State = Active | IdleCandidate

  ghost function OpenRun(fs: seq<Frame>): seq<Frame>
  {
    fs[Cut(fs)..]
  }

  /** What the loop's variables say after the records fs. */
  ghost predicate Follows(fs: seq<Frame>, header: seq<Byte>, state: State, out: seq<Byte>, st: Stats)
  {
    && state == (if Candidate(fs).Some? then IdleCandidate else Active)
    && out == header + RawBytes(Settled(fs))
    && st == StatsOf(fs, Settled(fs), Dropped(fs))
  }

  /** Write the buffered records, counting each as kernel. */
  method Flush(idle: IdleBuffer, ghost run: seq<Frame>, out: seq<Byte>, st: Stats)
    returns (out': seq<Byte>, st': Stats)
    requires Buffers(idle, run)
    ensures out' == out + RawBytes(run)
    ensures st' == st.(outTotal := st.outTotal + |run|, outKernel := st.outKernel + |run|)
  {
    out', st' := out, st;
    assert run[..0] == [];
    for i := 0 to idle.slotsUsed
      invariant out' == out + RawBytes(run[..i])
      invariant st' == st.(outTotal := st.outTotal + i, outKernel := st.outKernel + i)
    {
      var data := idle.Record(i);
      FlushOne(run, i);
      ConcatParts(out, RawBytes(run[..i]), data);
      out' := out' + data;
      st' := st'.(outTotal := st'.outTotal + 1, outKernel := st'.outKernel + 1);
    }
    assert run[..|run|] == run;
  }

  lemma FlushOne(run: seq<Frame>, i: nat)
    requires i < |run|
    ensures RawBytes(run[..i + 1]) == RawBytes(run[..i]) + run[i].raw
  {
    assert run[..i + 1] == run[..i] + [run[i]];
    RawBytesAppend(run[..i], [run[i]]);
    assert RawBytes([run[i]]) == run[i].raw + RawBytes([]);
  }

  function Seen(st: Stats, f: Frame): Stats
  {
    if IsUser(f) then st.(inTotal := st.inTotal + 1, inUser := st.inUser + 1)
    else st.(inTotal := st.inTotal + 1, inKernel := st.inKernel + 1)
  }

  function Wrote(st: Stats, f: Frame): Stats
  {
    if IsUser(f) then st.(outTotal := st.outTotal + 1, outUser := st.outUser + 1)
    else st.(outTotal := st.outTotal + 1, outKernel := st.outKernel + 1)
  }

  lemma StatsHold(fs: seq<Frame>, out: seq<Frame>, gone: seq<Frame>, f: Frame)
    ensures StatsOf(fs + [f], out, gone) == Seen(StatsOf(fs, out, gone), f)
  {
    CountSnoc(fs, f, IsUser);
    CountSnoc(fs, f, IsKernel);
  }

  lemma StatsWrite(fs: seq<Frame>, out: seq<Frame>, gone: seq<Frame>, f: Frame)
    requires !IsHlt(f)
    ensures StatsOf(fs + [f], out + [f], gone) == Wrote(Seen(StatsOf(fs, out, gone), f), f)
  {
    StatsHold(fs, out, gone, f);
    CountSnoc(out, f, IsWake);
  }

  lemma StatsDrop(fs: seq<Frame>, out: seq<Frame>, gone: seq<Frame>, run: seq<Frame>)
    ensures var st := StatsOf(fs, out, gone);
            StatsOf(fs, out, gone + run) == st.(idleDiscarded := st.idleDiscarded + Count(run, IsKernel))
  {
    CountAppend(gone, run, IsKernel);
  }

  lemma StatsFlush(fs: seq<Frame>, out: seq<Frame>, gone: seq<Frame>, run: seq<Frame>)
    requires Count(run, IsWake) == 0
    ensures var st := StatsOf(fs, out, gone);
            StatsOf(fs, out + run, gone)
            == st.(outTotal := st.outTotal + |run|, outKernel := st.outKernel + |run|)
  {
    CountAppend(out, run, IsWake);
  }

  lemma WriteOne(header: seq<Byte>, fs: seq<Frame>, f: Frame)
    ensures header + RawBytes(fs + [f]) == header + RawBytes(fs) + f.raw
  {
    RawBytesAppend(fs, [f]);
    assert RawBytes([f]) == f.raw + RawBytes([]);
  }

  /** Active, and no HLT: the record is written. */
  lemma WrittenParts(fs: seq<Frame>, f: Frame)
    requires Candidate(fs) == None && !IsHlt(f)
    ensures Candidate(fs + [f]) == None
    ensures Settled(fs + [f]) == Settled(fs) + [f] && Dropped(fs + [f]) == Dropped(fs)
  {
    CandidateSnoc(fs, f);
    KeepSnoc(fs, f);
    assert (fs + [f])[|fs|..|fs| + 1] == [f];
  }

  lemma WriteStep(fs: seq<Frame>, header: seq<Byte>, f: Frame, out: seq<Byte>, st: Stats)
    requires Follows(fs, header, Active, out, st) && !IsHlt(f)
    ensures Follows(fs + [f], header, Active, out + f.raw, Wrote(Seen(st, f), f))
  {
    WrittenParts(fs, f);
    StatsWrite(fs, Settled(fs), Dropped(fs), f);
    WriteOne(header, Settled(fs), f);
  }

  /** A HLT while active, or a kernel record in a candidate run: buffered, nothing decided. */
  lemma HeldParts(fs: seq<Frame>, f: Frame)
    requires if Candidate(fs) == None then IsHlt(f) else !IsHlt(f) && IsKernel(f)
    ensures Candidate(fs + [f]).Some? && OpenRun(fs + [f]) == OpenRun(fs) + [f]
    ensures Settled(fs + [f]) == Settled(fs) && Dropped(fs + [f]) == Dropped(fs)
  {
    CandidateSnoc(fs, f);
    KeepSnoc(fs, f);
    assert (fs + [f])[Cut(fs)..Cut(fs)] == [];
  }

  lemma HoldStep(fs: seq<Frame>, header: seq<Byte>, f: Frame, state: State, out: seq<Byte>, st: Stats)
    requires Follows(fs, header, state, out, st)
    requires if state == Active then IsHlt(f) else !IsHlt(f) && IsKernel(f)
    ensures Follows(fs + [f], header, IdleCandidate, out, Seen(st, f))
    ensures OpenRun(fs + [f]) == OpenRun(fs) + [f]
  {
    HeldParts(fs, f);
    StatsHold(fs, Settled(fs), Dropped(fs), f);
  }

  /** A HLT that ends a candidate run: the run is dropped and a new one begins. */
  lemma DropStep(fs: seq<Frame>, header: seq<Byte>, f: Frame, out: seq<Byte>, st: Stats)
    requires Follows(fs, header, IdleCandidate, out, st) && IsHlt(f)
    ensures var st' := Seen(st, f);
            Follows(fs + [f], header, IdleCandidate, out,
                    st'.(idleDiscarded := st.idleDiscarded + Count(OpenRun(fs), IsKernel)))
    ensures OpenRun(fs + [f]) == [f]
  {
    CandidateSnoc(fs, f);
    DropSnoc(fs, f);
    StatsDrop(fs, Settled(fs), Dropped(fs), OpenRun(fs));
    StatsHold(fs, Settled(fs), Dropped(fs) + OpenRun(fs), f);
  }

  /** A user record wakes the candidate run up: all of it is written after all. */
  lemma WokenParts(fs: seq<Frame>, f: Frame)
    requires Candidate(fs).Some? && IsWake(f)
    ensures Candidate(fs + [f]) == None
    ensures Settled(fs + [f]) == Settled(fs) + OpenRun(fs) + [f] && Dropped(fs + [f]) == Dropped(fs)
  {
    CandidateSnoc(fs, f);
    KeepSnoc(fs, f);
    assert (fs + [f])[Cut(fs)..|fs| + 1] == OpenRun(fs) + [f];
  }

  /** A candidate run holds no wake-up. */
  lemma RunHasNoWake(fs: seq<Frame>)
    ensures Count(OpenRun(fs), IsWake) == 0
  {
    if Candidate(fs).Some? {
      CandidateStart(fs);
    }
    CountNone(OpenRun(fs), IsWake);
  }

  lemma WakeBytes(fs: seq<Frame>, header: seq<Byte>, f: Frame)
    requires Candidate(fs).Some? && IsWake(f)
    ensures header + RawBytes(Settled(fs + [f])) == header + RawBytes(Settled(fs)) + RawBytes(OpenRun(fs)) + f.raw
  {
    WokenParts(fs, f);
    RawBytesAppend(Settled(fs), OpenRun(fs));
    ConcatParts(header, RawBytes(Settled(fs)), RawBytes(OpenRun(fs)));
    WriteOne(header, Settled(fs) + OpenRun(fs), f);
  }

  lemma WakeStats(fs: seq<Frame>, f: Frame)
    requires Candidate(fs).Some? && IsWake(f)
    ensures var n, st := |OpenRun(fs)|, StatsOf(fs, Settled(fs), Dropped(fs));
            var st' := Seen(st, f);
            StatsOf(fs + [f], Settled(fs + [f]), Dropped(fs + [f]))
            == Wrote(st'.(outTotal := st.outTotal + n, outKernel := st.outKernel + n), f)
  {
    WokenParts(fs, f);
    RunHasNoWake(fs);
    StatsFlush(fs, Settled(fs), Dropped(fs), OpenRun(fs));
    StatsWrite(fs, Settled(fs) + OpenRun(fs), Dropped(fs), f);
  }

  lemma WakeStep(fs: seq<Frame>, header: seq<Byte>, f: Frame, out: seq<Byte>, st: Stats)
    requires Follows(fs, header, IdleCandidate, out, st) && IsWake(f)
    ensures var n, st' := |OpenRun(fs)|, Seen(st, f);
            Follows(fs + [f], header, Active, out + RawBytes(OpenRun(fs)) + f.raw,
                    Wrote(st'.(outTotal := st.outTotal + n, outKernel := st.outKernel + n), f))
  {
    CandidateSnoc(fs, f);
    WakeBytes(fs, header, f);
    WakeStats(fs, f);
  }

  /** Buffer one more record. */
  method Hold(idle: IdleBuffer, ghost run: seq<Frame>, f: Frame)
    requires Buffers(idle, run)
    modifies idle.Repr
    ensures Buffers(idle, run + [f]) && fresh(idle.Repr - old(idle.Repr))
  {
    idle.Append(f.raw, f.rec.privilege != 0);
    RawsSnoc(run, f);
    CountSnoc(run, f, IsKernel);
  }

  /** Start a new candidate run with this HLT. */
  method Restart(idle: IdleBuffer, f: Frame)
    requires idle.Valid()
    modifies idle.Repr
    ensures Buffers(idle, [f]) && fresh(idle.Repr - old(idle.Repr))
  {
    idle.Reset();
    Hold(idle, [], f);
    assert [] + [f] == [f];
  }

  lemma NothingRuns(fs: seq<Frame>)
    requires Candidate(fs) == None
    ensures OpenRun(fs) == []
  {
  }

  method ProcessActive(ghost fs: seq<Frame>, ghost header: seq<Byte>, f: Frame, idle: IdleBuffer,
                       out: seq<Byte>, st: Stats)
    returns (state': State, out': seq<Byte>, st': Stats)
    requires Follows(fs, header, Active, out, st) && Buffers(idle, OpenRun(fs))
    modifies idle.Repr
    ensures Follows(fs + [f], header, state', out', st')
    ensures Buffers(idle, OpenRun(fs + [f])) && fresh(idle.Repr - old(idle.Repr))
  {
    state', out', st' := Active, out, Seen(st, f);
    NothingRuns(fs);
    if IsHlt(f) {
      HoldStep(fs, header, f, Active, out, st);
      state' := IdleCandidate;
      Restart(idle, f);
    } else {
      WriteStep(fs, header, f, out, st);
      NothingRuns(fs + [f]);
      out', st' := out' + f.raw, Wrote(st', f);
    }
  }

  /** A genuine wake-up: flush the buffer, then write this user record. */
  method WakeUp(ghost fs: seq<Frame>, ghost header: seq<Byte>, f: Frame, idle: IdleBuffer,
                out: seq<Byte>, st: Stats) returns (out': seq<Byte>, st': Stats)
    requires Follows(fs, header, IdleCandidate, out, st) && IsWake(f) && Buffers(idle, OpenRun(fs))
    modifies idle.Repr
    ensures Follows(fs + [f], header, Active, out', st')
    ensures Buffers(idle, OpenRun(fs + [f])) && fresh(idle.Repr - old(idle.Repr))
  {
    WakeStep(fs, header, f, out, st);
    NothingRuns(fs + [f]);
    out', st' := Flush(idle, OpenRun(fs), out, Seen(st, f));
    idle.Reset();
    out', st' := out' + f.raw, Wrote(st', f);
  }

  method ProcessCandidate(ghost fs: seq<Frame>, ghost header: seq<Byte>, f: Frame, idle: IdleBuffer,
                          out: seq<Byte>, st: Stats)
    returns (state': State, out': seq<Byte>, st': Stats)
    requires Follows(fs, header, IdleCandidate, out, st) && Buffers(idle, OpenRun(fs))
    modifies idle.Repr
    ensures Follows(fs + [f], header, state', out', st')
    ensures Buffers(idle, OpenRun(fs + [f])) && fresh(idle.Repr - old(idle.Repr))
  {
    state', out', st' := IdleCandidate, out, Seen(st, f);
    if IsHlt(f) {
      DropStep(fs, header, f, out, st);
      st' := st'.(idleDiscarded := st'.idleDiscarded + idle.kernelCount);
      Restart(idle, f);
    } else if f.rec.privilege == 0 {
      out', st' := WakeUp(fs, header, f, idle, out, st);
      state' := Active;
    } else {
      HoldStep(fs, header, f, IdleCandidate, out, st);
      Hold(idle, OpenRun(fs), f);
    }
  }

  /** One record through the state machine. */
  method Process(ghost fs: seq<Frame>, ghost header: seq<Byte>, f: Frame, idle: IdleBuffer,
                 state: State, out: seq<Byte>, st: Stats)
    returns (state': State, out': seq<Byte>, st': Stats)
    requires Follows(fs, header, state, out, st) && Buffers(idle, OpenRun(fs))
    modifies idle.Repr
    ensures Follows(fs + [f], header, state', out', st')
    ensures Buffers(idle, OpenRun(fs + [f])) && fresh(idle.Repr - old(idle.Repr))
  {
    if state == Active {
      state', out', st' := ProcessActive(fs, header, f, idle, out, st);
    } else {
      state', out', st' := ProcessCandidate(fs, header, f, idle, out, st);
    }
  }

  /** What is written and removed if the trace ends here. */
  lemma ConcludeParts(fs: seq<Frame>, header: seq<Byte>)
    ensures header + RawBytes(Settled(fs)) + RawBytes(OpenRun(fs)) == header + RawBytes(Filtered(fs))
    ensures var st := StatsOf(fs, Settled(fs), Dropped(fs));
            StatsOf(fs, Filtered(fs), Removed(fs))
            == st.(outTotal := st.outTotal + |OpenRun(fs)|, outKernel := st.outKernel + |OpenRun(fs)|)
  {
    FilteredNow(fs);
    RawBytesAppend(Settled(fs), OpenRun(fs));
    ConcatParts(header, RawBytes(Settled(fs)), RawBytes(OpenRun(fs)));
    RunHasNoWake(fs);
    StatsFlush(fs, Settled(fs), Dropped(fs), OpenRun(fs));
  }

  /** After the loop: the rest of the candidate run is kept, unless the file was corrupt. */
  method Conclude(ghost fs: seq<Frame>, header: seq<Byte>, why: Stop, idle: IdleBuffer, ghost state: State,
                  out: seq<Byte>, st: Stats) returns (r: FilterResult)
    requires Follows(fs, header, state, out, st) && Buffers(idle, OpenRun(fs))
    ensures FiltersStream(header, Scanned(fs, why), r)
  {
    if why == CorruptOp {
      return Crashed;
    }
    ConcludeParts(fs, header);
    var out', st' := Flush(idle, OpenRun(fs), out, st);
    r := Done(out', st');
  }

  lemma StartFollows(header: seq<Byte>)
    ensures Follows([], header, Active, header, Stats(0, 0, 0, 0, 0, 0, 0))
    ensures OpenRun([]) == [] && Raws([]) == [] && Count([], IsKernel) == 0
  {
  }

  /** Before the first record. */
  method Start(header: seq<Byte>)
    returns (idle: IdleBuffer, state: State, out: seq<Byte>, st: Stats, ghost fs: seq<Frame>)
    ensures |fs| == 0 && Follows(fs, header, state, out, st)
    ensures Buffers(idle, OpenRun(fs)) && fresh(idle.Repr)
  {
    idle := new IdleBuffer();
    state, out, st, fs := Active, header, Stats(0, 0, 0, 0, 0, 0, 0), [];
    StartFollows(header);
  }

  /** One turn of the loop: the next record is processed, or there is none and the reason is given. */
  method Turn(l: Layout, ghost header: seq<Byte>, reader: Reader, ghost sc: Scanned, ghost fs: seq<Frame>,
              idle: IdleBuffer, state: State, out: seq<Byte>, st: Stats)
    returns (why: Option<Stop>, state': State, out': seq<Byte>, st': Stats, ghost fs': seq<Frame>)
    requires reader.At(l, sc, fs) && Follows(fs, header, state, out, st) && Buffers(idle, OpenRun(fs))
    requires reader !in idle.Repr
    modifies reader, idle.Repr
    ensures why == None ==> |fs'| == |fs| + 1 && reader.At(l, sc, fs')
    ensures why.Some? ==> sc == Scanned(fs', why.value)
    ensures Follows(fs', header, state', out', st') && Buffers(idle, OpenRun(fs'))
    ensures fresh(idle.Repr - old(idle.Repr))
  {
    why, state', out', st', fs' := None, state, out, st, fs;
    var f := reader.NextFrame(l, sc, fs);
    if f.Stopped? {
      why := Some(f.why);
    } else {
      state', out', st' := Process(fs, header, f.value, idle, state, out, st);
      fs' := fs + [f.value];
    }
  }

  /** The record loop after the file header. */
  method FilterStream(l: Layout, header: seq<Byte>, reader: Reader, ghost sc: Scanned) returns (r: FilterResult)
    requires reader.At(l, sc, [])
    modifies reader
    ensures FiltersStream(header, sc, r)
  {
    ghost var fs;
    var idle, state, out, st;
    idle, state, out, st, fs := Start(header);
    var why := End;
    while true
      invariant reader.At(l, sc, fs)
      invariant Follows(fs, header, state, out, st) && Buffers(idle, OpenRun(fs))
      invariant fresh(idle.Repr)
      decreases |sc.frames| - |fs|
    {
      var stop;
      stop, state, out, st, fs := Turn(l, header, reader, sc, fs, idle, state, out, st);
      if stop.Some? {
        why := stop.value;
        break;
      }
    }
    r := Conclude(fs, header, why, idle, state, out, st);
  }

  /** trace_filter on one file. The 16-byte header is echoed verbatim. */
  method FilterFile(slices: seq<seq<Byte>>) returns (r: FilterResult)
    ensures Filters(Flatten(slices), r)
  {
    var reader := new Reader(slices);
    var ok, header := reader.ReadExact(FILE_HEADER_SIZE);
    if !ok {
      return Rejected(HeaderRefused(ShortHeader));
    }
    ghost var bytes := Flatten(slices);
    assert header[..4] == bytes[..4] && header[4..8] == bytes[4..8] && header[8..12] == bytes[8..12];
    var h := ReadHeader(header);
    assert h == ReadHeader(bytes);
    if h.Refused? {
      return Rejected(HeaderRefused(h.error));
    }
    if h.arch == 1 {
      return Rejected(ArchUnsupported);
    }
    r := FilterStream(h.layout, header, reader, Scan(h.layout, reader.Remaining()));
  }
}
