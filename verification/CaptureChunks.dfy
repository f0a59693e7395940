/** Chunking never changes what is captured: rotation, the instruction limit, a zero gap, and a chunk file
    that cannot be created. */
module CaptureChunks {
  import opened Bytes
  import opened RawFormat
  import opened CaptureSpec

  lemma FlattenLast<T>(ss: seq<seq<T>>, s: seq<T>)
    requires ss != []
    ensures Flatten(ss[|ss| - 1 := s]) == Flatten(ss[..|ss| - 1]) + s
    ensures Flatten(ss) == Flatten(ss[..|ss| - 1]) + Last(ss)
  {
    var front := ss[..|ss| - 1];
    assert ss[|ss| - 1 := s] == front + [s] && ss == front + [Last(ss)];
    FlattenSnoc(front, s);
    FlattenSnoc(front, Last(ss));
  }

  // ---- rotation ----

  /** Manifest rows of n full chunks of r records each. */
  function FullRows(r: nat, n: nat): (rows: seq<Row>)
    ensures |rows| == n
  {
    seq(n, j requires 0 <= j < n => Row(j, j * r, r))
  }

  /** How a rotating (or, with rotate == 0, an unchunked) machine stands after the stream xs. */
  ghost predicate Rotates(cfg: Config, xs: seq<RawRecord>, m: Machine)
  {
    && m.files != [] && m.captured <= |xs|
    && Flatten(m.files) == xs[..m.captured]
    && (m.mode == Recording ==> m.captured == |xs| && (cfg.limit > 0 ==> m.captured <= cfg.limit))
    && (m.mode == AtLimit ==> 0 < cfg.limit == m.captured < |xs|)
    && (m.mode == Recording || m.mode == AtLimit)
    && (cfg.rotate == 0 ==> |m.files| == 1 && m.rows == [])
    && (cfg.rotate > 0 ==>
          && (forall j :: 0 <= j < |m.files| - 1 ==> |m.files[j]| == cfg.rotate)
          && |Last(m.files)| <= cfg.rotate
          && (|m.files| > 1 ==> Last(m.files) != [])
          && m.captured == m.start + |Last(m.files)|
          && m.start == (|m.files| - 1) * cfg.rotate
          && m.rows == FullRows(cfg.rotate, |m.files| - 1))
  }

  /** The callback that closes a full chunk and opens the next. */
  lemma RotateOpen(cfg: Config, xs: seq<RawRecord>, x: RawRecord, m: Machine)
    requires cfg.sampleLen == 0 && cfg.rotate > 0 && Rotates(cfg, xs, m) && m.mode == Recording
    requires (cfg.limit > 0 ==> m.captured < cfg.limit) && |Last(m.files)| == cfg.rotate
    ensures Rotates(cfg, xs + [x], Execute(cfg, m, x, true))
  {
    var n := |m.files|;
    FlattenSnoc(m.files, [x]);
    assert Execute(cfg, m, x, true).files == m.files + [[x]] by {
      assert [] + [x] == [x];
    }
    assert n * cfg.rotate == (n - 1) * cfg.rotate + cfg.rotate;
    assert FullRows(cfg.rotate, n) == FullRows(cfg.rotate, n - 1) + [Row(n - 1, m.start, cfg.rotate)];
  }

  lemma RotatePush(cfg: Config, xs: seq<RawRecord>, x: RawRecord, m: Machine)
    requires Rotates(cfg, xs, m) && m.mode == Recording
    requires (cfg.limit > 0 ==> m.captured < cfg.limit) && (cfg.rotate > 0 ==> |Last(m.files)| < cfg.rotate)
    ensures Rotates(cfg, xs + [x], Push(m.(stream := m.stream + 1), x))
  {
    var f := Last(m.files);
    FlattenLast(m.files, f + [x]);
    assert Flatten(m.files[..|m.files| - 1]) + f + [x] == Flatten(m.files[..|m.files| - 1]) + (f + [x]);
  }

  lemma RotateExec(cfg: Config, xs: seq<RawRecord>, x: RawRecord, m: Machine)
    requires cfg.sampleLen == 0 && Rotates(cfg, xs, m)
    ensures Rotates(cfg, xs + [x], Execute(cfg, m, x, true))
  {
    if m.mode == AtLimit || (cfg.limit > 0 && m.captured >= cfg.limit) {
      assert (xs + [x])[..m.captured] == xs[..m.captured];
    } else if cfg.rotate > 0 && |Last(m.files)| >= cfg.rotate {
      RotateOpen(cfg, xs, x, m);
    } else {
      RotatePush(cfg, xs, x, m);
    }
  }

  /** Changing the last record of the newest file changes the last record of the whole stream. */
  lemma FlattenChangeLast(files: seq<seq<RawRecord>>, xs: seq<RawRecord>, y: RawRecord)
    requires files != [] && Last(files) != [] && Flatten(files) == xs
    ensures xs != [] && Last(Last(files)) == Last(xs)
    ensures var f := Last(files);
            Flatten(files[|files| - 1 := f[|f| - 1 := y]]) == xs[|xs| - 1 := y]
  {
    var f, front := Last(files), Flatten(files[..|files| - 1]);
    FlattenLast(files, f[|f| - 1 := y]);
    assert xs == front + f;
    assert front + f[|f| - 1 := y] == (front + f)[|front + f| - 1 := y];
  }

  /** The last record of the stream is the last of the newest file. */
  lemma NewestIsLast(files: seq<seq<RawRecord>>, xs: seq<RawRecord>)
    requires files != [] && xs != [] && Flatten(files) == xs && (|files| > 1 ==> Last(files) != [])
    ensures Last(files) != []
  {
    if |files| == 1 {
      FlattenOne(files);
    }
  }

  lemma FlattenOne<T>(ss: seq<seq<T>>)
    requires |ss| == 1
    ensures [Flatten(ss)] == ss && Last(ss) == Flatten(ss)
  {
    assert ss[1..] == [] && ss[0] + [] == ss[0];
  }

  lemma RotateMem(cfg: Config, xs: seq<RawRecord>, a: Access, m: Machine)
    requires cfg.sampleLen == 0 && xs != [] && Rotates(cfg, xs, m)
    ensures Rotates(cfg, xs[|xs| - 1 := AddOp(cfg.layout, Last(xs), a)], Attach(cfg, m, a))
  {
    var y := AddOp(cfg.layout, Last(xs), a);
    var ys := xs[|xs| - 1 := y];
    if m.mode == AtLimit {
      assert ys[..m.captured] == xs[..m.captured];
    } else {
      assert xs[..|xs|] == xs && ys[..|ys|] == ys;
      NewestIsLast(m.files, xs);
      FlattenChangeLast(m.files, xs, y);
    }
  }

  lemma {:induction false} RunRotates(cfg: Config, es: seq<Event>)
    requires cfg.sampleLen == 0 && AllOpen(es)
    ensures Executed(cfg, es) == [] ==> Run(cfg, es) == INSTALLED
    ensures Rotates(cfg, Executed(cfg, es), Run(cfg, es))
  {
    if es == [] {
      assert Flatten(INSTALLED.files) == [];
    } else {
      var before, e := es[..|es| - 1], es[|es| - 1];
      assert e in es;
      RunRotates(cfg, before);
      var xs, m := Executed(cfg, before), Run(cfg, before);
      match e
      case Exec(vaddr, insn, _) => RotateExec(cfg, xs, NewRecord(cfg, vaddr, insn), m);
      case Mem(a) =>
        if xs != [] {
          RotateMem(cfg, xs, a, m);
        }
    }
  }

  /** Executed does not depend on how the capture is chunked. */
  lemma {:induction false} ExecutedSame(cfg: Config, cfg': Config, es: seq<Event>)
    requires cfg'.layout == cfg.layout && cfg'.vcpu == cfg.vcpu && cfg'.arch == cfg.arch
    ensures Executed(cfg, es) == Executed(cfg', es)
  {
    if es == [] {
    } else {
      ExecutedSame(cfg, cfg', es[..|es| - 1]);
    }
  }

  lemma RotationFlat(cfg: Config, es: seq<Event>)
    requires cfg.sampleLen == 0 && AllOpen(es)
    ensures var xs := Executed(cfg, es);
            Flatten(Run(cfg, es).files) == xs[..if cfg.limit > 0 then Min(cfg.limit, |xs|) else |xs|]
  {
    RunRotates(cfg, es);
  }

  /** Under rotation the concatenated chunks are the unrotated capture, cut at the limit alike. */
  lemma RotationKeepsTheStream(cfg: Config, es: seq<Event>)
    requires cfg.sampleLen == 0 && AllOpen(es)
    ensures var xs := Executed(cfg, es);
            var all := Flatten(Run(cfg, es).files);
            && [all] == Run(cfg.(rotate := 0), es).files
            && all == xs[..if cfg.limit > 0 then Min(cfg.limit, |xs|) else |xs|]
  {
    var plain := cfg.(rotate := 0);
    RotationFlat(cfg, es);
    RotationFlat(plain, es);
    RunRotates(plain, es);
    ExecutedSame(cfg, plain, es);
    FlattenOne(Run(plain, es).files);
  }

  /** One row per non-empty chunk, saying where it starts: at the sum of the counts before it. */
  ghost predicate Indexes(rows: seq<Row>, files: seq<seq<RawRecord>>)
  {
    && |rows| <= |files|
    && (forall j :: |rows| <= j < |files| ==> files[j] == [])
    && forall j :: 0 <= j < |rows| ==> rows[j] == Row(j, |Flatten(files[..j])|, |files[j]|) && files[j] != []
  }

  lemma {:induction false} FullLength(files: seq<seq<RawRecord>>, r: nat)
    requires forall j :: 0 <= j < |files| ==> |files[j]| == r
    ensures |Flatten(files)| == |files| * r
  {
    if files == [] {
    } else {
      FullLength(files[1..], r);
    }
  }

  lemma RotatedManifest(cfg: Config, xs: seq<RawRecord>, m: Machine)
    requires cfg.rotate > 0 && Rotates(cfg, xs, m)
    ensures Indexes(Exit(cfg, m).rows, m.files)
  {
    var rows, n := Exit(cfg, m).rows, |m.files|;
    assert rows == FullRows(cfg.rotate, n - 1)
                   + if Last(m.files) == [] then [] else [Row(n - 1, m.start, |Last(m.files)|)];
    forall j | 0 <= j < n ensures |Flatten(m.files[..j])| == j * cfg.rotate {
      FullLength(m.files[..j], cfg.rotate);
    }
  }

  /** The rotation manifest at exit indexes the chunks; every chunk but the last is full. */
  lemma RotationManifest(cfg: Config, es: seq<Event>)
    requires cfg.sampleLen == 0 && cfg.rotate > 0 && AllOpen(es)
    ensures var m := Run(cfg, es);
            && Indexes(Exit(cfg, m).rows, m.files)
            && forall j :: 0 <= j < |m.files| - 1 ==> |m.files[j]| == cfg.rotate
  {
    RunRotates(cfg, es);
    RotatedManifest(cfg, Executed(cfg, es), Run(cfg, es));
  }

  // ---- the instruction limit ----

  /** The limited files are the unlimited ones cut short: equal up to the last, which is a prefix; and the
      record that would still take memory operations was not captured. */
  ghost predicate CutShort(m: Machine, full: Machine)
  {
    var n := |m.files|;
    && 0 < n <= |full.files|
    && m.files[..n - 1] == full.files[..n - 1]
    && Last(m.files) <= full.files[n - 1]
    && (!full.mode.Ended? ==> |full.files| > n || |Last(m.files)| < |full.files[n - 1]|)
  }

  ghost predicate LimitRelation(cfg: Config, m: Machine, full: Machine)
  {
    && m.files != [] && full.files != []
    && !full.mode.AtLimit?
    && if m.mode.AtLimit? then CutShort(m, full) && m.captured == cfg.limit
       else m == full && m.captured <= cfg.limit
  }

  /** What one instruction can do to the files. */
  ghost predicate FilesStep(m: Machine, m': Machine, r: RawRecord)
    requires m.files != []
  {
    || (m'.files == m.files && m'.captured == m.captured)
    || (m'.files == m.files[|m.files| - 1 := Last(m.files) + [r]] && m'.captured == m.captured + 1)
    || (m'.files == m.files + [[r]] && m'.captured == m.captured + 1)
    || (m'.files == m.files + [[]] && m'.captured == m.captured && m'.mode.AtLimit?)
  }

  lemma FirstOfChunk(m: Machine, start: nat, r: RawRecord)
    ensures Push(NewChunk(m, start), r).files == m.files + [[r]]
  {
    assert [] + [r] == [r] && (m.files + [[]])[|m.files| := [r]] == m.files + [[r]];
  }

  lemma RecordFiles(cfg: Config, m: Machine, r: RawRecord, ok: bool)
    requires m.files != []
    ensures FilesStep(m, Record(cfg, m, r, ok), r)
    ensures Record(cfg, m, r, ok).mode.AtLimit? ==> cfg.limit > 0 || m.mode.AtLimit?
  {
    FirstOfChunk(Close(cfg, m), m.captured, r);
  }

  lemma SkipFiles(cfg: Config, m: Machine, c: nat, r: RawRecord, ok: bool)
    requires m.files != []
    ensures FilesStep(m, Skip(cfg, m, c, r, ok), r)
    ensures Skip(cfg, m, c, r, ok).mode.AtLimit? ==> cfg.limit > 0 || m.mode.AtLimit?
  {
    FirstOfChunk(m, if m.stream > 0 then m.stream - 1 else 0, r);
  }

  lemma RecordOrEndFiles(cfg: Config, m: Machine, r: RawRecord, ok: bool)
    requires m.files != []
    ensures FilesStep(m, RecordOrEnd(cfg, m, r, ok), r)
    ensures RecordOrEnd(cfg, m, r, ok).mode.AtLimit? ==> cfg.limit > 0 || m.mode.AtLimit?
  {
    if cfg.sampleLen > 0 && |Last(m.files)| >= cfg.sampleLen {
      SkipFiles(cfg, Close(cfg, m), 0, r, ok);
    } else {
      RecordFiles(cfg, m, r, ok);
    }
  }

  lemma ExecuteFiles(cfg: Config, m: Machine, r: RawRecord, ok: bool)
    requires m.files != []
    ensures FilesStep(m, Execute(cfg, m, r, ok), r)
    ensures Execute(cfg, m, r, ok).mode.AtLimit? ==> cfg.limit > 0 || m.mode.AtLimit?
  {
    match m.mode
    case Gap(c) => SkipFiles(cfg, m.(stream := m.stream + 1), c, r, ok);
    case Recording => ExecuteRecordingFiles(cfg, m, r, ok);
    case _ =>
  }

  lemma ExecuteRecordingFiles(cfg: Config, m: Machine, r: RawRecord, ok: bool)
    requires m.files != [] && m.mode.Recording?
    ensures FilesStep(m, Execute(cfg, m, r, ok), r)
    ensures Execute(cfg, m, r, ok).mode.AtLimit? ==> cfg.limit > 0
  {
    var seen := m.(stream := m.stream + 1);
    ExecuteRecording(cfg, m, r, ok);
    RecordOrEndFiles(cfg, seen, r, ok);
    assert FilesStep(seen, RecordOrEnd(cfg, seen, r, ok), r);
  }

  /** A capture that goes on only ever adds to what a shorter one holds. */
  lemma CutGrows(m: Machine, full: Machine, full': Machine, r: RawRecord)
    requires CutShort(m, full)
    requires || full'.files == full.files
             || full'.files == full.files[|full.files| - 1 := Last(full.files) + [r]]
             || full'.files == full.files + [[r]]
    requires full.mode.Ended? ==> full' == full
    ensures CutShort(m, full')
  {
  }

  lemma LimitExec(cfg: Config, r: RawRecord, ok: bool, m: Machine, full: Machine)
    requires cfg.limit > 0 && LimitRelation(cfg, m, full)
    ensures LimitRelation(cfg, Execute(cfg, m, r, ok), Execute(cfg.(limit := 0), full, r, ok))
  {
    var free := cfg.(limit := 0);
    var full' := Execute(free, full, r, ok);
    ExecuteFiles(free, full, r, ok);
    if m.mode.AtLimit? {
      CutGrows(m, full, full', r);
    } else {
      LimitReached(cfg, r, ok, m);
    }
  }

  /** One instruction, with the limit and without: the same, unless it is the one the limit refuses. */
  ghost predicate Refused(cfg: Config, m': Machine, full': Machine)
  {
    if m'.mode.AtLimit? then CutShort(m', full') && m'.captured == cfg.limit
    else m' == full' && m'.captured <= cfg.limit
  }

  lemma LimitRecord(cfg: Config, r: RawRecord, ok: bool, m: Machine)
    requires cfg.limit > 0 && m.files != [] && m.captured <= cfg.limit
    requires !m.mode.AtLimit?
    ensures Refused(cfg, Record(cfg, m, r, ok), Record(cfg.(limit := 0), m, r, ok))
  {
    var n, f := |m.files|, Last(m.files);
    assert m.files[n - 1 := f + [r]][..n - 1] == m.files[..n - 1];
    assert (m.files + [[r]])[..n - 1] == m.files[..n - 1];
    assert [] + [r] == [r] && (m.files + [[]])[n := [r]] == m.files + [[r]];
  }

  lemma LimitSkip(cfg: Config, r: RawRecord, ok: bool, m: Machine, c: nat)
    requires cfg.limit > 0 && m.files != [] && m.captured <= cfg.limit
    requires !m.mode.AtLimit?
    ensures Refused(cfg, Skip(cfg, m, c, r, ok), Skip(cfg.(limit := 0), m, c, r, ok))
  {
    LimitRecord(cfg, r, ok, NewChunk(m, if m.stream > 0 then m.stream - 1 else 0));
  }

  lemma LimitRecordOrEnd(cfg: Config, r: RawRecord, ok: bool, m: Machine)
    requires cfg.limit > 0 && m.files != [] && m.captured <= cfg.limit && !m.mode.AtLimit?
    ensures Refused(cfg, RecordOrEnd(cfg, m, r, ok), RecordOrEnd(cfg.(limit := 0), m, r, ok))
  {
    if cfg.sampleLen > 0 && |Last(m.files)| >= cfg.sampleLen {
      assert Close(cfg.(limit := 0), m) == Close(cfg, m);
      LimitSkip(cfg, r, ok, Close(cfg, m), 0);
    } else {
      LimitRecord(cfg, r, ok, m);
    }
  }

  lemma LimitReachedInGap(cfg: Config, r: RawRecord, ok: bool, m: Machine)
    requires cfg.limit > 0 && m.files != [] && m.mode.Gap? && m.captured <= cfg.limit
    ensures Refused(cfg, Execute(cfg, m, r, ok), Execute(cfg.(limit := 0), m, r, ok))
  {
    LimitSkip(cfg, r, ok, m.(stream := m.stream + 1), m.mode.counted);
  }

  lemma LimitReachedRecording(cfg: Config, r: RawRecord, ok: bool, m: Machine)
    requires cfg.limit > 0 && m.files != [] && m.mode.Recording? && m.captured <= cfg.limit
    ensures Refused(cfg, Execute(cfg, m, r, ok), Execute(cfg.(limit := 0), m, r, ok))
  {
    var seen, free := m.(stream := m.stream + 1), cfg.(limit := 0);
    var m', full' := RecordOrEnd(cfg, seen, r, ok), RecordOrEnd(free, seen, r, ok);
    ExecuteRecording(cfg, m, r, ok);
    ExecuteRecording(free, m, r, ok);
    LimitRecordOrEnd(cfg, r, ok, seen);
    assert Refused(cfg, m', full');
  }

  lemma ExecuteRecording(cfg: Config, m: Machine, r: RawRecord, ok: bool)
    requires m.files != [] && m.mode.Recording?
    ensures Execute(cfg, m, r, ok) == RecordOrEnd(cfg, m.(stream := m.stream + 1), r, ok)
  {
  }

  lemma LimitReached(cfg: Config, r: RawRecord, ok: bool, m: Machine)
    requires cfg.limit > 0 && m.files != [] && !m.mode.AtLimit? && m.captured <= cfg.limit
    ensures Refused(cfg, Execute(cfg, m, r, ok), Execute(cfg.(limit := 0), m, r, ok))
  {
    match m.mode
    case Gap(c) => LimitReachedInGap(cfg, r, ok, m);
    case Recording => LimitReachedRecording(cfg, r, ok, m);
    case Ended =>
  }

  lemma LimitMem(cfg: Config, a: Access, m: Machine, full: Machine)
    requires cfg.limit > 0 && LimitRelation(cfg, m, full)
    ensures LimitRelation(cfg, Attach(cfg, m, a), Attach(cfg.(limit := 0), full, a))
  {
    var full' := Attach(cfg, full, a);
    if m.mode.AtLimit? {
      assert full'.files[..|m.files| - 1] == full.files[..|m.files| - 1];
    }
  }

  lemma {:induction false} RunCaptured(cfg: Config, es: seq<Event>)
    ensures Run(cfg, es).captured == |Flatten(Run(cfg, es).files)|
  {
    if es == [] {
      assert Flatten(INSTALLED.files) == [];
    } else {
      var before, e := es[..|es| - 1], es[|es| - 1];
      RunCaptured(cfg, before);
      var m := Run(cfg, before);
      match e
      case Mem(a) => CapturedMem(cfg, m, a);
      case Exec(vaddr, insn, ok) => CapturedExec(cfg, m, NewRecord(cfg, vaddr, insn), ok);
    }
  }

  lemma CapturedExec(cfg: Config, m: Machine, r: RawRecord, ok: bool)
    requires m.files != [] && m.captured == |Flatten(m.files)|
    ensures var m' := Execute(cfg, m, r, ok);
            m'.captured == |Flatten(m'.files)|
  {
    ExecuteFiles(cfg, m, r, ok);
    FlattenLast(m.files, Last(m.files) + [r]);
    FlattenSnoc(m.files, [r]);
    FlattenSnoc(m.files, []);
  }

  lemma CapturedMem(cfg: Config, m: Machine, a: Access)
    requires m.files != [] && m.captured == |Flatten(m.files)|
    ensures var m' := Attach(cfg, m, a);
            m'.captured == |Flatten(m'.files)|
  {
    var f := Last(m.files);
    if f != [] {
      FlattenLast(m.files, f[|f| - 1 := AddOp(cfg.layout, Last(f), a)]);
    }
  }

  /** With a limit, chunk for chunk and record for record, a capture is the unlimited one cut after
      `limit` records. */
  lemma {:induction false} LimitCutsTheCapture(cfg: Config, es: seq<Event>)
    requires cfg.limit > 0
    ensures LimitRelation(cfg, Run(cfg, es), Run(cfg.(limit := 0), es))
    ensures Run(cfg, es).mode.AtLimit? ==> |Flatten(Run(cfg, es).files)| == cfg.limit
  {
    RunCaptured(cfg, es);
    if es == [] {
    } else {
      var before, e := es[..|es| - 1], es[|es| - 1];
      LimitCutsTheCapture(cfg, before);
      var m, full := Run(cfg, before), Run(cfg.(limit := 0), before);
      match e
      case Exec(vaddr, insn, ok) => LimitExec(cfg, NewRecord(cfg, vaddr, insn), ok, m, full);
      case Mem(a) => LimitMem(cfg, a, m, full);
    }
  }

  // ---- a zero gap ----

  /** The sampling configuration that should behave like rotate=n. */
  function ZeroGap(cfg: Config): Config
  {
    cfg.(rotate := 0, sampleLen := cfg.rotate, sampleGap := 0, sampleCount := 0, clockUser := false)
  }

  /** Sampling reaches a limit on a chunk boundary only after opening one more, empty, chunk. */
  ghost predicate ZeroGapRelation(cfg: Config, rot: Machine, sam: Machine)
  {
    && rot.files != []
    && match rot.mode {
         case Recording =>
           && sam == rot && (cfg.limit == 0 || rot.captured <= cfg.limit)
           && rot.stream == rot.captured
         case AtLimit =>
           if |Last(rot.files)| == cfg.rotate
           then sam.mode == AtLimit && sam.files == rot.files + [[]] && sam.rows == Close(cfg, rot).rows
           else sam == rot
         case _ => false
       }
  }

  lemma ZeroGapInside(cfg: Config, r: RawRecord, m: Machine)
    requires cfg.rotate > 0 && cfg.sampleLen == 0
    requires ZeroGapRelation(cfg, m, m) && m.mode == Recording && |Last(m.files)| < cfg.rotate
    ensures ZeroGapRelation(cfg, Execute(cfg, m, r, true), Execute(ZeroGap(cfg), m, r, true))
    ensures |Last(Execute(cfg, m, r, true).files)| <= cfg.rotate
  {
  }

  lemma ZeroGapBoundary(cfg: Config, r: RawRecord, m: Machine)
    requires cfg.rotate > 0 && cfg.sampleLen == 0
    requires ZeroGapRelation(cfg, m, m) && m.mode == Recording && |Last(m.files)| == cfg.rotate
    ensures ZeroGapRelation(cfg, Execute(cfg, m, r, true), Execute(ZeroGap(cfg), m, r, true))
    ensures |Last(Execute(cfg, m, r, true).files)| <= cfg.rotate
  {
    var seen := m.(stream := m.stream + 1);
    var closed := Close(ZeroGap(cfg), seen);
    assert Execute(ZeroGap(cfg), m, r, true) == Record(ZeroGap(cfg), NewChunk(closed, m.stream), r, true);
  }

  lemma ZeroGapExec(cfg: Config, r: RawRecord, rot: Machine, sam: Machine)
    requires cfg.rotate > 0 && cfg.sampleLen == 0
    requires ZeroGapRelation(cfg, rot, sam) && |Last(rot.files)| <= cfg.rotate
    ensures ZeroGapRelation(cfg, Execute(cfg, rot, r, true), Execute(ZeroGap(cfg), sam, r, true))
    ensures |Last(Execute(cfg, rot, r, true).files)| <= cfg.rotate
  {
    if rot.mode == Recording {
      if |Last(rot.files)| < cfg.rotate {
        ZeroGapInside(cfg, r, rot);
      } else {
        ZeroGapBoundary(cfg, r, rot);
      }
    }
  }

  lemma ZeroGapMem(cfg: Config, a: Access, rot: Machine, sam: Machine)
    requires cfg.rotate > 0
    requires ZeroGapRelation(cfg, rot, sam) && |Last(rot.files)| <= cfg.rotate
    ensures ZeroGapRelation(cfg, Attach(cfg, rot, a), Attach(ZeroGap(cfg), sam, a))
    ensures |Last(Attach(cfg, rot, a).files)| <= cfg.rotate
  {
  }

  lemma {:induction false} RunZeroGap(cfg: Config, es: seq<Event>)
    requires cfg.rotate > 0 && cfg.sampleLen == 0 && AllOpen(es)
    ensures ZeroGapRelation(cfg, Run(cfg, es), Run(ZeroGap(cfg), es))
    ensures |Last(Run(cfg, es).files)| <= cfg.rotate
  {
    if es == [] {
    } else {
      var before, e := es[..|es| - 1], es[|es| - 1];
      assert e in es;
      RunZeroGap(cfg, before);
      var rot, sam := Run(cfg, before), Run(ZeroGap(cfg), before);
      match e
      case Exec(vaddr, insn, _) => ZeroGapExec(cfg, NewRecord(cfg, vaddr, insn), rot, sam);
      case Mem(a) => ZeroGapMem(cfg, a, rot, sam);
    }
  }

  /** Same manifest; same chunks, but for one empty chunk in exactly the stated case. */
  ghost predicate SameButForBoundary(cfg: Config, xs: seq<RawRecord>, rot: Machine, sam: Machine)
    requires rot.files != [] && sam.files != [] && cfg.rotate > 0
  {
    && Exit(cfg, rot).rows == Exit(ZeroGap(cfg), sam).rows
    && sam.files == if cfg.limit > 0 && cfg.limit % cfg.rotate == 0 && |xs| > cfg.limit
                    then rot.files + [[]] else rot.files
  }

  lemma ZeroGapOutcome(cfg: Config, xs: seq<RawRecord>, rot: Machine, sam: Machine)
    requires cfg.rotate > 0 && cfg.sampleLen == 0
    requires Rotates(cfg, xs, rot) && sam.files != [] && ZeroGapRelation(cfg, rot, sam)
    ensures SameButForBoundary(cfg, xs, rot, sam)
  {
    var n, f := |rot.files| - 1, |Last(rot.files)|;
    assert rot.captured == n * cfg.rotate + f;
    BlockRemainder(rot.captured, cfg.rotate, n, f);
  }

  /** Sampling with gap 0 and clock=all writes the manifest rotate= with the same length writes, and the
      same chunks. The exception is exact: a limit that is a multiple of the length, once passed, leaves
      sampling with one more chunk file, which holds no record. */
  lemma ZeroGapIsRotation(cfg: Config, es: seq<Event>)
    requires cfg.rotate > 0 && cfg.sampleLen == 0 && AllOpen(es)
    ensures SameButForBoundary(cfg, Executed(cfg, es), Run(cfg, es), Run(ZeroGap(cfg), es))
  {
    RunZeroGap(cfg, es);
    RunRotates(cfg, es);
    ZeroGapOutcome(cfg, Executed(cfg, es), Run(cfg, es), Run(ZeroGap(cfg), es));
  }

  lemma BlockRemainder(k: nat, r: nat, n: nat, f: nat)
    requires r > 0 && k == n * r + f && f <= r
    ensures k % r == 0 <==> f == 0 || f == r
  {
    if f < r {
      assert k % r == f by {
        MulMod(n, r, f);
      }
    } else {
      assert k == (n + 1) * r;
      MulMod(n + 1, r, 0);
    }
  }

  lemma {:induction false} MulMod(n: nat, r: nat, f: nat)
    requires r > 0 && f < r
    ensures (n * r + f) % r == f
    decreases n
  {
    if n == 0 {
    } else {
      MulMod(n - 1, r, f);
      assert n * r + f == ((n - 1) * r + f) + r;
      ModAdd((n - 1) * r + f, r);
    }
  }

  lemma ModAdd(q: nat, r: nat)
    requires r > 0
    ensures (q + r) % r == q % r
  {
    var d := (q + r) / r - q / r - 1;
    assert d * r == q % r - (q + r) % r;
    MultipleIsLarge(d, r);
  }

  lemma MultipleIsLarge(d: int, r: int)
    requires r > 0
    ensures (d >= 1 ==> d * r >= r) && (d <= -1 ==> d * r <= -r)
  {
  }

  // ---- a chunk that cannot be created ----

  lemma {:induction false} EndedStays(cfg: Config, es: seq<Event>, fs: seq<Event>)
    requires Run(cfg, es).mode.Ended?
    ensures Run(cfg, es + fs) == Run(cfg, es)
  {
    if fs == [] {
      assert es + fs == es;
    } else {
      var before := fs[..|fs| - 1];
      EndedStays(cfg, es, before);
      assert (es + fs)[..|es + fs| - 1] == es + before;
    }
  }

  /** The callback that fails to create its chunk writes at most the row of the chunk it just closed. */
  lemma FailedOpen(cfg: Config, m: Machine, r: RawRecord)
    requires m.files != []
    requires Execute(cfg, m, r, false).mode.Ended? && !Execute(cfg, m, r, true).mode.Ended?
    ensures var m' := Execute(cfg, m, r, false);
            m'.files == m.files && m'.rows == if m.mode.Gap? then m.rows else Close(cfg, m).rows
  {
  }

  /** A callback whose new chunk cannot be created stops this vCPU and keeps the earlier chunks: whatever
      follows, no file changes, and the manifest gains no row for the chunk that was never created. */
  lemma OpenFailureKeepsChunks(cfg: Config, es: seq<Event>, e: Event, fs: seq<Event>)
    requires e.Exec? && !e.canOpen
    requires Step(cfg, Run(cfg, es), e).mode.Ended? && !Step(cfg, Run(cfg, es), e.(canOpen := true)).mode.Ended?
    ensures var m, late := Run(cfg, es), Run(cfg, es + [e] + fs);
            && late.files == m.files
            && Exit(cfg, late).rows == if m.mode.Gap? then m.rows else Exit(cfg, m).rows
  {
    assert (es + [e])[..|es|] == es;
    FailedOpen(cfg, Run(cfg, es), NewRecord(cfg, e.vaddr, e.insn));
    assert Run(cfg, es + [e]) == Step(cfg, Run(cfg, es), e);
    EndedStays(cfg, es + [e], fs);
  }
}
