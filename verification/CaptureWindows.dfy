/** Periodic sampling records exactly the declarative windows of the executed stream. */
module CaptureWindows {
  import opened Bytes
  import opened RawFormat
  import opened CaptureSpec
  import opened CaptureStream

  import CaptureChunks

  // ---- the declarative windows ----

  /** The (k+1)-th clock-qualifying instruction at or after `from`; |xs| or beyond if there is none. */
  function Seek(cfg: Config, xs: seq<RawRecord>, from: nat, k: nat): (p: nat)
    ensures from <= p && (from <= |xs| ==> p <= |xs|)
    decreases |xs| - from
  {
    if from >= |xs| then from
    else if !Qualifies(cfg, xs[from]) then Seek(cfg, xs, from + 1, k)
    else if k == 0 then from
    else Seek(cfg, xs, from + 1, k - 1)
  }

  /** Window 0 starts at the first instruction; each next one at the (sample_gap + 1)-th qualifying
      instruction after the window before it. */
  function WindowStart(cfg: Config, xs: seq<RawRecord>, j: nat): nat
  {
    if j == 0 then 0 else Seek(cfg, xs, WindowStart(cfg, xs, j - 1) + cfg.sampleLen, cfg.sampleGap)
  }

  /** sample_len consecutive instructions, fewer only if the stream ends first. */
  function Window(cfg: Config, xs: seq<RawRecord>, j: nat): seq<RawRecord>
  {
    var s := Min(WindowStart(cfg, xs, j), |xs|);
    xs[s..Min(s + cfg.sampleLen, |xs|)]
  }

  /** The files are windows 0, 1, 2, ... of xs, and no window that should be there is missing. */
  ghost predicate ExactlyWindows(cfg: Config, xs: seq<RawRecord>, files: seq<seq<RawRecord>>)
  {
    && |files| >= 1
    && (forall j :: 0 <= j < |files| ==> files[j] == Window(cfg, xs, j))
    && (forall j :: 0 < j < |files| ==> WindowStart(cfg, xs, j) < |xs|)
    && (cfg.sampleCount > 0 ==> |files| <= cfg.sampleCount)
    && (WindowStart(cfg, xs, |files|) >= |xs| || |files| == cfg.sampleCount)
  }

  /** One manifest row per window: its number, its stream position, its length. */
  function WindowRows(cfg: Config, xs: seq<RawRecord>, n: nat): (rows: seq<Row>)
    ensures |rows| == n
  {
    seq(n, j requires 0 <= j < n => Row(j, WindowStart(cfg, xs, j), |Window(cfg, xs, j)|))
  }

  // ---- facts about Seek ----

  /** How many instructions at or after `from` tick the clock. */
  function Ticks(cfg: Config, xs: seq<RawRecord>, from: nat): nat
    decreases |xs| - from
  {
    if from >= |xs| then 0
    else (if Qualifies(cfg, xs[from]) then 1 else 0) + Ticks(cfg, xs, from + 1)
  }

  /** Seek's answer qualifies, and exactly k qualifying instructions precede it. */
  lemma {:induction false} SeekMeaning(cfg: Config, xs: seq<RawRecord>, from: nat, k: nat)
    requires from <= |xs|
    ensures var p := Seek(cfg, xs, from, k);
            if p < |xs| then Qualifies(cfg, xs[p]) && Ticks(cfg, xs[..p], from) == k
            else Ticks(cfg, xs, from) <= k
    decreases |xs| - from
  {
    var p := Seek(cfg, xs, from, k);
    if from >= |xs| {
    } else {
      SeekMeaning(cfg, xs, from + 1, if Qualifies(cfg, xs[from]) && k > 0 then k - 1 else k);
      assert from < p ==> xs[..p][from] == xs[from];
    }
  }

  lemma {:induction false} TicksSnoc(cfg: Config, xs: seq<RawRecord>, x: RawRecord, from: nat)
    requires from <= |xs|
    ensures Ticks(cfg, xs + [x], from) == Ticks(cfg, xs, from) + if Qualifies(cfg, x) then 1 else 0
    decreases |xs| - from
  {
    if from < |xs| {
      TicksSnoc(cfg, xs, x, from + 1);
    } else {
      assert Ticks(cfg, xs + [x], from + 1) == 0;
    }
  }

  /** One more instruction moves no window that had already started, and starts the one being waited
      for exactly when its clock ticks have all been counted and it qualifies. */
  lemma {:induction false} SeekSnoc(cfg: Config, xs: seq<RawRecord>, x: RawRecord, from: nat, k: nat)
    requires from <= |xs|
    ensures Seek(cfg, xs, from, k) < |xs| ==> Seek(cfg, xs + [x], from, k) == Seek(cfg, xs, from, k)
    ensures Seek(cfg, xs, from, k) >= |xs| ==>
              Seek(cfg, xs + [x], from, k)
              == if Ticks(cfg, xs, from) == k && Qualifies(cfg, x) then |xs| else |xs| + 1
    decreases |xs| - from
  {
    if from < |xs| {
      assert (xs + [x])[from] == xs[from];
      if !Qualifies(cfg, xs[from]) {
        SeekSnoc(cfg, xs, x, from + 1, k);
      } else if k > 0 {
        SeekSnoc(cfg, xs, x, from + 1, k - 1);
      }
    } else {
      assert Seek(cfg, xs + [x], from + 1, k) == from + 1;
      if k > 0 {
        assert Seek(cfg, xs + [x], from + 1, k - 1) == from + 1;
      }
    }
  }

  /** Streams whose instructions tick the clock alike have the same windows. */
  ghost predicate SameClock(cfg: Config, xs: seq<RawRecord>, ys: seq<RawRecord>)
  {
    |xs| == |ys| && forall i :: 0 <= i < |xs| ==> Qualifies(cfg, xs[i]) == Qualifies(cfg, ys[i])
  }

  lemma {:induction false} SeekSame(cfg: Config, xs: seq<RawRecord>, ys: seq<RawRecord>, from: nat, k: nat)
    requires SameClock(cfg, xs, ys)
    ensures Seek(cfg, xs, from, k) == Seek(cfg, ys, from, k)
    ensures Ticks(cfg, xs, from) == Ticks(cfg, ys, from)
    decreases |xs| - from
  {
    if from >= |xs| {
    } else {
      SeekSame(cfg, xs, ys, from + 1, k);
      if k > 0 {
        SeekSame(cfg, xs, ys, from + 1, k - 1);
      }
    }
  }

  lemma {:induction false} StartSame(cfg: Config, xs: seq<RawRecord>, ys: seq<RawRecord>, j: nat)
    requires SameClock(cfg, xs, ys)
    ensures WindowStart(cfg, xs, j) == WindowStart(cfg, ys, j)
  {
    if j == 0 {
    } else {
      StartSame(cfg, xs, ys, j - 1);
      SeekSame(cfg, xs, ys, WindowStart(cfg, xs, j - 1) + cfg.sampleLen, cfg.sampleGap);
    }
  }

  lemma {:induction false} StartSnoc(cfg: Config, xs: seq<RawRecord>, x: RawRecord, j: nat)
    requires cfg.sampleLen > 0 && (j == 0 || WindowStart(cfg, xs, j) < |xs|)
    ensures WindowStart(cfg, xs + [x], j) == WindowStart(cfg, xs, j)
    ensures forall i :: 0 < i < j ==> WindowStart(cfg, xs, i) < |xs|
    decreases j
  {
    if j == 0 {
    } else {
      StartSnoc(cfg, xs, x, j - 1);
      SeekSnoc(cfg, xs, x, WindowStart(cfg, xs, j - 1) + cfg.sampleLen, cfg.sampleGap);
    }
  }

  // ---- what every run keeps ----

  ghost predicate Sampling(cfg: Config)
  {
    cfg.sampleLen > 0 && cfg.rotate == 0
  }

  /** File j is window j: started within xs, and complete unless it is the newest. */
  ghost predicate IsWindow(cfg: Config, xs: seq<RawRecord>, files: seq<seq<RawRecord>>, j: nat)
    requires j < |files|
  {
    && files[j] == Window(cfg, xs, j)
    && (j > 0 ==> WindowStart(cfg, xs, j) < |xs|)
    && (j < |files| - 1 ==> WindowStart(cfg, xs, j) + cfg.sampleLen < |xs|)
  }

  /** The files are the first windows of xs, all but the newest complete. */
  ghost predicate FirstWindows(cfg: Config, xs: seq<RawRecord>, files: seq<seq<RawRecord>>)
  {
    files != [] && forall j :: 0 <= j < |files| ==> IsWindow(cfg, xs, files, j)
  }

  /** Where the newest window ends if it is complete. */
  function NewestEnd(cfg: Config, xs: seq<RawRecord>, files: seq<seq<RawRecord>>): nat
    requires files != []
  {
    WindowStart(cfg, xs, |files| - 1) + cfg.sampleLen
  }

  /** The newest window is complete and its row written; c ticks of the gap after it have gone by. */
  ghost predicate InGap(cfg: Config, xs: seq<RawRecord>, m: Machine, c: nat)
  {
    && FirstWindows(cfg, xs, m.files)
    && NewestEnd(cfg, xs, m.files) <= |xs|
    && m.rows == WindowRows(cfg, xs, |m.files|)
    && m.start == WindowStart(cfg, xs, |m.files| - 1)
    && c == Ticks(cfg, xs, NewestEnd(cfg, xs, m.files)) <= cfg.sampleGap
    && (cfg.sampleCount > 0 ==> |m.files| < cfg.sampleCount)
  }

  /** How a sampling machine stands after the stream xs. */
  ghost predicate Tracks(cfg: Config, xs: seq<RawRecord>, m: Machine)
  {
    match m.mode
    case Recording =>
      && FirstWindows(cfg, xs, m.files)
      && |xs| <= NewestEnd(cfg, xs, m.files)
      && m.rows == WindowRows(cfg, xs, |m.files| - 1)
      && m.start == WindowStart(cfg, xs, |m.files| - 1)
      && m.stream == |xs|
      && (cfg.sampleCount > 0 ==> |m.files| <= cfg.sampleCount)
    case Gap(c) => InGap(cfg, xs, m, c) && m.stream == |xs| > NewestEnd(cfg, xs, m.files)
    case Ended =>
      && FirstWindows(cfg, xs, m.files)
      && NewestEnd(cfg, xs, m.files) < |xs|
      && m.rows == WindowRows(cfg, xs, |m.files|)
      && |m.files| == cfg.sampleCount
    case AtLimit => false
  }

  lemma WindowSnoc(cfg: Config, xs: seq<RawRecord>, x: RawRecord, files: seq<seq<RawRecord>>, j: nat)
    requires Sampling(cfg) && j < |files| && IsWindow(cfg, xs, files, j)
    ensures WindowStart(cfg, xs + [x], j) == WindowStart(cfg, xs, j)
    ensures Window(cfg, xs + [x], j)
            == files[j] + if WindowStart(cfg, xs, j) + cfg.sampleLen <= |xs| then [] else [x]
  {
    StartSnoc(cfg, xs, x, j);
  }

  lemma RowsSnoc(cfg: Config, xs: seq<RawRecord>, x: RawRecord, files: seq<seq<RawRecord>>, n: nat)
    requires Sampling(cfg) && FirstWindows(cfg, xs, files) && n <= |files|
    requires n < |files| || NewestEnd(cfg, xs, files) <= |xs|
    ensures WindowRows(cfg, xs + [x], n) == WindowRows(cfg, xs, n)
  {
    forall j | 0 <= j < n ensures WindowRows(cfg, xs + [x], n)[j] == WindowRows(cfg, xs, n)[j] {
      assert IsWindow(cfg, xs, files, j);
      WindowSnoc(cfg, xs, x, files, j);
    }
  }

  /** Instructions after a complete window leave it, and every row so far, alone. */
  lemma ClosedSnoc(cfg: Config, xs: seq<RawRecord>, x: RawRecord, files: seq<seq<RawRecord>>)
    requires Sampling(cfg) && FirstWindows(cfg, xs, files) && NewestEnd(cfg, xs, files) <= |xs|
    ensures FirstWindows(cfg, xs + [x], files)
    ensures NewestEnd(cfg, xs + [x], files) == NewestEnd(cfg, xs, files)
    ensures WindowRows(cfg, xs + [x], |files|) == WindowRows(cfg, xs, |files|)
  {
    forall j | 0 <= j < |files|
      ensures IsWindow(cfg, xs + [x], files, j) && WindowStart(cfg, xs + [x], j) == WindowStart(cfg, xs, j)
    {
      assert IsWindow(cfg, xs, files, j);
      WindowSnoc(cfg, xs, x, files, j);
      assert files[j] + [] == files[j];
    }
    RowsSnoc(cfg, xs, x, files, |files|);
  }

  /** An incomplete window takes the next instruction. */
  lemma GrowSnoc(cfg: Config, xs: seq<RawRecord>, x: RawRecord, files: seq<seq<RawRecord>>)
    requires Sampling(cfg) && FirstWindows(cfg, xs, files) && |xs| < NewestEnd(cfg, xs, files)
    ensures FirstWindows(cfg, xs + [x], files[|files| - 1 := Last(files) + [x]])
    ensures WindowStart(cfg, xs + [x], |files| - 1) == WindowStart(cfg, xs, |files| - 1)
    ensures WindowRows(cfg, xs + [x], |files| - 1) == WindowRows(cfg, xs, |files| - 1)
  {
    var files' := files[|files| - 1 := Last(files) + [x]];
    forall j | 0 <= j < |files|
      ensures IsWindow(cfg, xs + [x], files', j) && WindowStart(cfg, xs + [x], j) == WindowStart(cfg, xs, j)
    {
      assert IsWindow(cfg, xs, files, j);
      WindowSnoc(cfg, xs, x, files, j);
      assert files[j] + [] == files[j];
    }
    RowsSnoc(cfg, xs, x, files, |files| - 1);
  }

  /** x is the instruction a seek was waiting for. */
  lemma SeekNext(cfg: Config, xs: seq<RawRecord>, x: RawRecord, e: nat)
    requires e <= |xs| && Ticks(cfg, xs, e) == cfg.sampleGap && Qualifies(cfg, x)
    ensures Seek(cfg, xs + [x], e, cfg.sampleGap) == |xs|
  {
    SeekSnoc(cfg, xs, x, e, cfg.sampleGap);
    SeekFull(cfg, xs, e, cfg.sampleGap);
  }

  lemma StartAfter(cfg: Config, ys: seq<RawRecord>, files: seq<seq<RawRecord>>)
    requires files != []
    ensures WindowStart(cfg, ys, |files|) == Seek(cfg, ys, NewestEnd(cfg, ys, files), cfg.sampleGap)
  {
  }

  /** One more file that is the next window. */
  lemma AddWindow(cfg: Config, ys: seq<RawRecord>, files: seq<seq<RawRecord>>, f: seq<RawRecord>)
    requires Sampling(cfg) && FirstWindows(cfg, ys, files) && f == Window(cfg, ys, |files|)
    requires WindowStart(cfg, ys, |files|) < |ys| && NewestEnd(cfg, ys, files) < |ys|
    ensures FirstWindows(cfg, ys, files + [f])
  {
    forall j | 0 <= j < |files| + 1 ensures IsWindow(cfg, ys, files + [f], j) {
      if j < |files| {
        assert IsWindow(cfg, ys, files, j);
      }
    }
  }

  /** The next window opens with x as its first instruction. */
  lemma OpenSnoc(cfg: Config, xs: seq<RawRecord>, x: RawRecord, files: seq<seq<RawRecord>>)
    requires Sampling(cfg) && FirstWindows(cfg, xs, files) && NewestEnd(cfg, xs, files) <= |xs|
    requires Ticks(cfg, xs, NewestEnd(cfg, xs, files)) == cfg.sampleGap && Qualifies(cfg, x)
    ensures FirstWindows(cfg, xs + [x], files + [[x]])
    ensures WindowStart(cfg, xs + [x], |files|) == |xs|
  {
    ClosedSnoc(cfg, xs, x, files);
    SeekNext(cfg, xs, x, NewestEnd(cfg, xs, files));
    StartAfter(cfg, xs + [x], files);
    assert Window(cfg, xs + [x], |files|) == [x];
    AddWindow(cfg, xs + [x], files, [x]);
  }

  /** An instruction seen in a gap: counted, waited out, or the first of the next window. */
  lemma SkipTracks(cfg: Config, xs: seq<RawRecord>, x: RawRecord, m: Machine, c: nat)
    requires Sampling(cfg) && cfg.limit == 0
    requires InGap(cfg, xs, m, c) && m.stream == |xs| + 1
    ensures Tracks(cfg, xs + [x], Skip(cfg, m, c, x, true))
  {
    if c == cfg.sampleGap && Qualifies(cfg, x) {
      OpenSnoc(cfg, xs, x, m.files);
      RowsSnoc(cfg, xs, x, m.files, |m.files|);
      assert Skip(cfg, m, c, x, true).files == m.files + [[x]] by {
        assert [] + [x] == [x];
      }
    } else {
      ClosedSnoc(cfg, xs, x, m.files);
      TicksSnoc(cfg, xs, x, NewestEnd(cfg, xs, m.files));
    }
  }

  lemma {:induction false} SeekFull(cfg: Config, xs: seq<RawRecord>, from: nat, k: nat)
    requires from <= |xs| && Ticks(cfg, xs, from) <= k
    ensures Seek(cfg, xs, from, k) == |xs|
    decreases |xs| - from
  {
    if from >= |xs| {
    } else {
      if !Qualifies(cfg, xs[from]) {
        SeekFull(cfg, xs, from + 1, k);
      } else {
        SeekFull(cfg, xs, from + 1, k - 1);
      }
    }
  }

  lemma PushTracks(cfg: Config, xs: seq<RawRecord>, x: RawRecord, m: Machine)
    requires Sampling(cfg) && cfg.limit == 0
    requires m.mode.Recording? && Tracks(cfg, xs, m) && |xs| < NewestEnd(cfg, xs, m.files)
    ensures Tracks(cfg, xs + [x], Push(m.(stream := m.stream + 1), x))
  {
    GrowSnoc(cfg, xs, x, m.files);
  }

  /** The callback after the last instruction of a window. */
  lemma BoundaryTracks(cfg: Config, xs: seq<RawRecord>, x: RawRecord, m: Machine)
    requires Sampling(cfg) && cfg.limit == 0
    requires m.mode.Recording? && Tracks(cfg, xs, m) && |xs| == NewestEnd(cfg, xs, m.files)
    ensures |Last(m.files)| == cfg.sampleLen
    ensures var closed := Close(cfg, m.(stream := m.stream + 1));
            if cfg.sampleCount > 0 && |m.files| >= cfg.sampleCount
            then Tracks(cfg, xs + [x], closed.(mode := Ended))
            else Tracks(cfg, xs + [x], Skip(cfg, closed, 0, x, true))
  {
    var n := |m.files|;
    assert IsWindow(cfg, xs, m.files, n - 1);
    var closed := Close(cfg, m.(stream := m.stream + 1));
    assert closed.rows == WindowRows(cfg, xs, n);
    if cfg.sampleCount > 0 && n >= cfg.sampleCount {
      ClosedSnoc(cfg, xs, x, m.files);
    } else {
      SkipTracks(cfg, xs, x, closed, 0);
    }
  }

  /** An incomplete window is open: the instruction is pushed. */
  lemma ExecInside(cfg: Config, m: Machine, x: RawRecord)
    requires Sampling(cfg) && cfg.limit == 0 && m.mode.Recording? && m.files != []
    requires |Last(m.files)| < cfg.sampleLen
    ensures Execute(cfg, m, x, true) == Push(m.(stream := m.stream + 1), x)
  {
  }

  /** A complete window is open: it is closed first. */
  lemma ExecBoundary(cfg: Config, m: Machine, x: RawRecord)
    requires Sampling(cfg) && cfg.limit == 0 && m.mode.Recording? && m.files != []
    requires |Last(m.files)| >= cfg.sampleLen
    ensures var closed := Close(cfg, m.(stream := m.stream + 1));
            Execute(cfg, m, x, true) == if cfg.sampleCount > 0 && |m.files| >= cfg.sampleCount
                                        then closed.(mode := Ended) else Skip(cfg, closed, 0, x, true)
  {
  }

  /** The newest window is full exactly when the stream has reached its end. */
  lemma NewestLength(cfg: Config, xs: seq<RawRecord>, m: Machine)
    requires Sampling(cfg) && m.mode.Recording? && Tracks(cfg, xs, m)
    ensures |Last(m.files)| < cfg.sampleLen <==> |xs| < NewestEnd(cfg, xs, m.files)
  {
    assert IsWindow(cfg, xs, m.files, |m.files| - 1);
  }

  lemma ExecRecordingTracks(cfg: Config, xs: seq<RawRecord>, x: RawRecord, m: Machine)
    requires Sampling(cfg) && cfg.limit == 0 && m.mode.Recording? && Tracks(cfg, xs, m)
    ensures Tracks(cfg, xs + [x], Execute(cfg, m, x, true))
  {
    NewestLength(cfg, xs, m);
    if |xs| < NewestEnd(cfg, xs, m.files) {
      ExecInside(cfg, m, x);
      PushTracks(cfg, xs, x, m);
      assert Tracks(cfg, xs + [x], Push(m.(stream := m.stream + 1), x));
    } else {
      ExecBoundary(cfg, m, x);
      BoundaryTracks(cfg, xs, x, m);
    }
  }

  lemma ExecGap(cfg: Config, m: Machine, x: RawRecord, c: nat)
    requires m.mode == Gap(c) && m.files != []
    ensures Execute(cfg, m, x, true) == Skip(cfg, m.(stream := m.stream + 1), c, x, true)
  {
  }

  lemma EndedTracks(cfg: Config, xs: seq<RawRecord>, x: RawRecord, m: Machine)
    requires Sampling(cfg) && m.mode.Ended? && Tracks(cfg, xs, m)
    ensures Tracks(cfg, xs + [x], m)
  {
    ClosedSnoc(cfg, xs, x, m.files);
  }

  lemma ExecTracks(cfg: Config, xs: seq<RawRecord>, x: RawRecord, m: Machine)
    requires Sampling(cfg) && cfg.limit == 0 && Tracks(cfg, xs, m)
    ensures Tracks(cfg, xs + [x], Execute(cfg, m, x, true))
  {
    match m.mode
    case Gap(c) =>
      ExecGap(cfg, m, x, c);
      SkipTracks(cfg, xs, x, m.(stream := m.stream + 1), c);
    case Ended => EndedTracks(cfg, xs, x, m);
    case Recording => ExecRecordingTracks(cfg, xs, x, m);
  }

  /** A stream whose last instruction changed, but ticks the clock as before: every window that ended
      before it is the same, and so is every row. */
  lemma WindowChanged(cfg: Config, xs: seq<RawRecord>, y: RawRecord, files: seq<seq<RawRecord>>, j: nat)
    requires Sampling(cfg) && xs != [] && j < |files| && IsWindow(cfg, xs, files, j)
    requires Qualifies(cfg, y) == Qualifies(cfg, Last(xs))
    ensures var ys := xs[|xs| - 1 := y];
            && WindowStart(cfg, ys, j) == WindowStart(cfg, xs, j)
            && |Window(cfg, ys, j)| == |files[j]|
            && (WindowStart(cfg, xs, j) + cfg.sampleLen < |xs| ==> Window(cfg, ys, j) == files[j])
            && (WindowStart(cfg, xs, j) < |xs| <= WindowStart(cfg, xs, j) + cfg.sampleLen ==>
                  files[j] != [] && Last(files[j]) == Last(xs)
                  && Window(cfg, ys, j) == files[j][|files[j]| - 1 := y])
  {
    StartSame(cfg, xs, xs[|xs| - 1 := y], j);
  }

  lemma RowsChanged(cfg: Config, xs: seq<RawRecord>, y: RawRecord, files: seq<seq<RawRecord>>, n: nat)
    requires Sampling(cfg) && xs != [] && FirstWindows(cfg, xs, files) && n <= |files|
    requires Qualifies(cfg, y) == Qualifies(cfg, Last(xs))
    ensures WindowRows(cfg, xs[|xs| - 1 := y], n) == WindowRows(cfg, xs, n)
  {
    var ys := xs[|xs| - 1 := y];
    forall j | 0 <= j < n ensures WindowRows(cfg, ys, n)[j] == WindowRows(cfg, xs, n)[j] {
      assert IsWindow(cfg, xs, files, j);
      WindowChanged(cfg, xs, y, files, j);
    }
  }

  /** A window that ended before the newest instruction is still the window it was. */
  lemma EndedUnchanged(cfg: Config, xs: seq<RawRecord>, y: RawRecord, files: seq<seq<RawRecord>>, j: nat)
    requires Sampling(cfg) && xs != [] && j < |files| && IsWindow(cfg, xs, files, j)
    requires Qualifies(cfg, y) == Qualifies(cfg, Last(xs))
    requires WindowStart(cfg, xs, j) + cfg.sampleLen < |xs|
    ensures IsWindow(cfg, xs[|xs| - 1 := y], files, j)
  {
    WindowChanged(cfg, xs, y, files, j);
  }

  /** Nothing is being recorded: every file stays the window it was. */
  lemma EndedFilesChanged(cfg: Config, xs: seq<RawRecord>, y: RawRecord, files: seq<seq<RawRecord>>)
    requires Sampling(cfg) && xs != [] && FirstWindows(cfg, xs, files)
    requires Qualifies(cfg, y) == Qualifies(cfg, Last(xs)) && NewestEnd(cfg, xs, files) < |xs|
    ensures FirstWindows(cfg, xs[|xs| - 1 := y], files)
  {
    var ys := xs[|xs| - 1 := y];
    forall j | 0 <= j < |files| ensures IsWindow(cfg, ys, files, j) {
      assert IsWindow(cfg, xs, files, j);
      EndedUnchanged(cfg, xs, y, files, j);
    }
  }

  /** The window still open takes the change of its newest instruction. */
  lemma OpenWindowChanged(cfg: Config, xs: seq<RawRecord>, y: RawRecord, files: seq<seq<RawRecord>>)
    requires Sampling(cfg) && xs != [] && FirstWindows(cfg, xs, files)
    requires Qualifies(cfg, y) == Qualifies(cfg, Last(xs)) && |xs| <= NewestEnd(cfg, xs, files)
    ensures var f, n := Last(files), |files|;
            && f != [] && Last(f) == Last(xs)
            && Window(cfg, xs[|xs| - 1 := y], n - 1) == f[|f| - 1 := y]
            && WindowStart(cfg, xs[|xs| - 1 := y], n - 1) == WindowStart(cfg, xs, n - 1)
            && (n > 1 ==> WindowStart(cfg, xs, n - 1) < |xs|)
  {
    var n := |files| - 1;
    assert IsWindow(cfg, xs, files, n);
    assert Last(files) == Window(cfg, xs, n);
    StartSame(cfg, xs, xs[|xs| - 1 := y], n);
    SliceChanged(xs, y, WindowStart(cfg, xs, n));
  }

  lemma SliceChanged<T>(xs: seq<T>, y: T, s: nat)
    requires s < |xs|
    ensures xs[s..] == xs[s..|xs|] && xs[s..] != [] && Last(xs[s..]) == Last(xs)
    ensures xs[|xs| - 1 := y][s..|xs|] == xs[s..][|xs| - 1 - s := y]
  {
  }

  /** Another file's change is none of this one's business. */
  lemma IsWindowSame(cfg: Config, ys: seq<RawRecord>, files: seq<seq<RawRecord>>, f: seq<RawRecord>, j: nat)
    requires j < |files| - 1 && IsWindow(cfg, ys, files, j)
    ensures IsWindow(cfg, ys, files[|files| - 1 := f], j)
  {
  }

  /** The file still recording takes the change of its newest instruction. */
  lemma OpenFileChanged(cfg: Config, xs: seq<RawRecord>, y: RawRecord, files: seq<seq<RawRecord>>)
    requires Sampling(cfg) && xs != [] && FirstWindows(cfg, xs, files)
    requires Qualifies(cfg, y) == Qualifies(cfg, Last(xs)) && |xs| <= NewestEnd(cfg, xs, files)
    ensures var f := Last(files);
            f != [] && Last(f) == Last(xs)
            && FirstWindows(cfg, xs[|xs| - 1 := y], files[|files| - 1 := f[|f| - 1 := y]])
  {
    OpenWindowChanged(cfg, xs, y, files);
    var ys, f, n := xs[|xs| - 1 := y], Last(files), |files|;
    var changed := f[|f| - 1 := y];
    var files' := files[n - 1 := changed];
    forall j | 0 <= j < n ensures IsWindow(cfg, ys, files', j) {
      if j < n - 1 {
        assert IsWindow(cfg, xs, files, j);
        EndedUnchanged(cfg, xs, y, files, j);
        IsWindowSame(cfg, ys, files, changed, j);
      }
    }
  }

  /** The newest instruction of the stream gained a memory operation, and it was recorded. */
  lemma RecordingChanged(cfg: Config, xs: seq<RawRecord>, y: RawRecord, m: Machine)
    requires Sampling(cfg) && xs != [] && m.mode.Recording? && Tracks(cfg, xs, m)
    requires Qualifies(cfg, y) == Qualifies(cfg, Last(xs))
    ensures var f := Last(m.files);
            f != [] && Last(f) == Last(xs)
            && Tracks(cfg, xs[|xs| - 1 := y], m.(files := m.files[|m.files| - 1 := f[|f| - 1 := y]]))
  {
    OpenFileChanged(cfg, xs, y, m.files);
    RowsChanged(cfg, xs, y, m.files, |m.files| - 1);
    StartSame(cfg, xs, xs[|xs| - 1 := y], |m.files| - 1);
  }

  lemma MemTracksRecording(cfg: Config, xs: seq<RawRecord>, a: Access, m: Machine)
    requires Sampling(cfg) && xs != [] && m.mode.Recording? && Tracks(cfg, xs, m)
    ensures Tracks(cfg, xs[|xs| - 1 := AddOp(cfg.layout, Last(xs), a)], Attach(cfg, m, a))
  {
    RecordingChanged(cfg, xs, AddOp(cfg.layout, Last(xs), a), m);
    AttachRecording(cfg, m, a);
  }

  lemma AttachRecording(cfg: Config, m: Machine, a: Access)
    requires m.files != [] && m.mode.Recording? && Last(m.files) != []
    ensures var f := Last(m.files);
            Attach(cfg, m, a) == m.(files := m.files[|m.files| - 1 := f[|f| - 1 := AddOp(cfg.layout, Last(f), a)]])
  {
  }

  /** A skipped instruction's memory operation: nothing recorded changes. */
  lemma MemTracksSkipped(cfg: Config, xs: seq<RawRecord>, y: RawRecord, m: Machine)
    requires Sampling(cfg) && xs != [] && !m.mode.Recording? && Tracks(cfg, xs, m)
    requires Qualifies(cfg, y) == Qualifies(cfg, Last(xs))
    ensures Tracks(cfg, xs[|xs| - 1 := y], m)
  {
    EndedFilesChanged(cfg, xs, y, m.files);
    RowsChanged(cfg, xs, y, m.files, |m.files|);
    StartSame(cfg, xs, xs[|xs| - 1 := y], |m.files| - 1);
    SeekSame(cfg, xs, xs[|xs| - 1 := y], NewestEnd(cfg, xs, m.files), 0);
  }

  /** The newest instruction of the stream gained a memory operation: it reaches the newest file if that
      instruction was recorded, and no file if it was skipped. */
  lemma MemTracks(cfg: Config, xs: seq<RawRecord>, a: Access, m: Machine)
    requires Sampling(cfg) && xs != [] && Tracks(cfg, xs, m)
    ensures Tracks(cfg, xs[|xs| - 1 := AddOp(cfg.layout, Last(xs), a)], Attach(cfg, m, a))
  {
    if m.mode.Recording? {
      MemTracksRecording(cfg, xs, a, m);
    } else {
      assert Attach(cfg, m, a) == m;
      MemTracksSkipped(cfg, xs, AddOp(cfg.layout, Last(xs), a), m);
    }
  }

  ghost predicate TracksAll(cfg: Config, xs: seq<RawRecord>, m: Machine)
  {
    Tracks(cfg, xs, m) && (xs == [] ==> m == INSTALLED)
  }

  lemma StepTracks(cfg: Config, xs: seq<RawRecord>, m: Machine, e: Event)
    requires Sampling(cfg) && cfg.limit == 0 && (e.Exec? ==> e.canOpen)
    requires TracksAll(cfg, xs, m)
    ensures TracksAll(cfg, Observe(cfg, xs, e), Step(cfg, m, e))
  {
    match e
    case Exec(vaddr, insn, _) => ExecTracks(cfg, xs, NewRecord(cfg, vaddr, insn), m);
    case Mem(a) =>
      if xs != [] {
        MemTracks(cfg, xs, a, m);
      }
  }

  lemma {:induction false} RunTracks(cfg: Config, es: seq<Event>)
    requires Sampling(cfg) && cfg.limit == 0 && AllOpen(es)
    ensures TracksAll(cfg, Executed(cfg, es), Run(cfg, es))
  {
    if es == [] {
      assert IsWindow(cfg, [], [[]], 0);
    } else {
      var before, e := es[..|es| - 1], es[|es| - 1];
      assert e in es;
      RunTracks(cfg, before);
      StepTracks(cfg, Executed(cfg, before), Run(cfg, before), e);
    }
  }

  /** No window that should have started is missing. */
  lemma NoneMissing(cfg: Config, xs: seq<RawRecord>, m: Machine)
    requires Sampling(cfg) && Tracks(cfg, xs, m)
    ensures m.files != []
    ensures WindowStart(cfg, xs, |m.files|) >= |xs| || |m.files| == cfg.sampleCount
    ensures cfg.sampleCount > 0 ==> |m.files| <= cfg.sampleCount
  {
    StartAfter(cfg, xs, m.files);
    if m.mode.Gap? {
      SeekFull(cfg, xs, NewestEnd(cfg, xs, m.files), cfg.sampleGap);
    }
  }

  lemma TrackedWindows(cfg: Config, xs: seq<RawRecord>, m: Machine)
    requires Sampling(cfg) && Tracks(cfg, xs, m)
    ensures ExactlyWindows(cfg, xs, m.files)
  {
    NoneMissing(cfg, xs, m);
    forall j | 0 <= j < |m.files|
      ensures m.files[j] == Window(cfg, xs, j) && (j > 0 ==> WindowStart(cfg, xs, j) < |xs|)
    {
      assert IsWindow(cfg, xs, m.files, j);
    }
  }

  // ---- main results ----

  /** Record i of the file is that of the instruction callback i places after the start-th. */
  ghost predicate FileFromTheRun(cfg: Config, es: seq<Event>, start: nat, f: seq<RawRecord>)
  {
    forall i :: 0 <= i < |f| ==> IsInstruction(cfg, es, start + i, f[i])
  }

  /** Each file is made of the instruction callbacks from its window's start on. */
  ghost predicate FromTheRun(cfg: Config, es: seq<Event>, files: seq<seq<RawRecord>>)
  {
    forall j :: 0 <= j < |files| ==> FileFromTheRun(cfg, es, WindowStart(cfg, Executed(cfg, es), j), files[j])
  }

  lemma WindowAt(cfg: Config, xs: seq<RawRecord>, j: nat, i: nat)
    requires i < |Window(cfg, xs, j)|
    ensures WindowStart(cfg, xs, j) + i < |xs| && Window(cfg, xs, j)[i] == xs[WindowStart(cfg, xs, j) + i]
  {
  }

  lemma WindowFromTheRun(cfg: Config, es: seq<Event>, xs: seq<RawRecord>, j: nat)
    requires AllInstructions(cfg, es, xs)
    ensures FileFromTheRun(cfg, es, WindowStart(cfg, xs, j), Window(cfg, xs, j))
  {
    forall i | 0 <= i < |Window(cfg, xs, j)|
      ensures IsInstruction(cfg, es, WindowStart(cfg, xs, j) + i, Window(cfg, xs, j)[i])
    {
      WindowAt(cfg, xs, j, i);
    }
  }

  lemma WindowsFromTheRun(cfg: Config, es: seq<Event>, files: seq<seq<RawRecord>>)
    requires ExactlyWindows(cfg, Executed(cfg, es), files)
    ensures FromTheRun(cfg, es, files)
  {
    ExecutedIsTheRun(cfg, es);
    forall j | 0 <= j < |files|
      ensures FileFromTheRun(cfg, es, WindowStart(cfg, Executed(cfg, es), j), files[j])
    {
      WindowFromTheRun(cfg, es, Executed(cfg, es), j);
    }
  }

  /** For every event stream, window length, gap, window count and clock, the files are exactly the
      declarative windows of the executed stream. Each record is that of its own instruction callback and carries
      exactly the first seven memory callbacks that followed it, and none of a skipped instruction. */
  lemma SamplingRecordsExactlyTheWindows(cfg: Config, es: seq<Event>)
    requires Sampling(cfg) && cfg.limit == 0 && AllOpen(es)
    ensures ExactlyWindows(cfg, Executed(cfg, es), Run(cfg, es).files)
    ensures FromTheRun(cfg, es, Run(cfg, es).files)
  {
    RunTracks(cfg, es);
    TrackedWindows(cfg, Executed(cfg, es), Run(cfg, es));
    WindowsFromTheRun(cfg, es, Run(cfg, es).files);
  }

  // ---- when a chunk file cannot be created ----

  /** No window is open, and the windows so far have their rows. */
  ghost predicate Stalled(cfg: Config, xs: seq<RawRecord>, m: Machine)
  {
    && m.mode.Ended? && FirstWindows(cfg, xs, m.files) && NewestEnd(cfg, xs, m.files) < |xs|
    && m.rows == WindowRows(cfg, xs, |m.files|)
  }

  ghost predicate TracksOrStalls(cfg: Config, xs: seq<RawRecord>, m: Machine)
  {
    (TracksAll(cfg, xs, m) || (xs != [] && Stalled(cfg, xs, m))) && (m.mode.Ended? ==> Stalled(cfg, xs, m))
  }

  lemma StalledSnoc(cfg: Config, xs: seq<RawRecord>, x: RawRecord, m: Machine)
    requires Sampling(cfg) && Stalled(cfg, xs, m)
    ensures Stalled(cfg, xs + [x], m)
  {
    ClosedSnoc(cfg, xs, x, m.files);
  }

  lemma StalledChanged(cfg: Config, xs: seq<RawRecord>, y: RawRecord, m: Machine)
    requires Sampling(cfg) && xs != [] && Stalled(cfg, xs, m) && Qualifies(cfg, y) == Qualifies(cfg, Last(xs))
    ensures Stalled(cfg, xs[|xs| - 1 := y], m)
  {
    EndedFilesChanged(cfg, xs, y, m.files);
    RowsChanged(cfg, xs, y, m.files, |m.files|);
    StartSame(cfg, xs, xs[|xs| - 1 := y], |m.files| - 1);
  }

  /** A window that should open with x, and cannot. */
  lemma SkipStalls(cfg: Config, xs: seq<RawRecord>, x: RawRecord, m: Machine, c: nat)
    requires Sampling(cfg) && cfg.limit == 0 && InGap(cfg, xs, m, c) && m.stream == |xs| + 1 && !m.mode.Ended?
    ensures var m' := Skip(cfg, m, c, x, false);
            if m'.mode.Ended? then Stalled(cfg, xs + [x], m') else m' == Skip(cfg, m, c, x, true)
  {
    ClosedSnoc(cfg, xs, x, m.files);
  }

  lemma RecordingStalls(cfg: Config, xs: seq<RawRecord>, x: RawRecord, m: Machine)
    requires Sampling(cfg) && cfg.limit == 0 && m.mode.Recording? && Tracks(cfg, xs, m)
    ensures var m' := Execute(cfg, m, x, false);
            if m'.mode.Ended? then Stalled(cfg, xs + [x], m') else m' == Execute(cfg, m, x, true)
  {
    CaptureChunks.ExecuteRecording(cfg, m, x, false);
    CaptureChunks.ExecuteRecording(cfg, m, x, true);
    NewestLength(cfg, xs, m);
    if |Last(m.files)| >= cfg.sampleLen {
      var seen := m.(stream := m.stream + 1);
      if cfg.sampleCount > 0 && |m.files| >= cfg.sampleCount {
        BoundaryTracks(cfg, xs, x, m);
      } else {
        CloseIntoGap(cfg, xs, m);
        SkipStalls(cfg, xs, x, Close(cfg, seen), 0);
      }
    }
  }

  lemma ExecStalls(cfg: Config, xs: seq<RawRecord>, x: RawRecord, m: Machine)
    requires Sampling(cfg) && cfg.limit == 0 && !m.mode.Ended? && Tracks(cfg, xs, m)
    ensures var m' := Execute(cfg, m, x, false);
            if m'.mode.Ended? then Stalled(cfg, xs + [x], m') else m' == Execute(cfg, m, x, true)
  {
    match m.mode
    case Gap(c) =>
      ExecGap(cfg, m, x, c);
      SkipStalls(cfg, xs, x, m.(stream := m.stream + 1), c);
    case Recording => RecordingStalls(cfg, xs, x, m);
  }

  lemma EndedIsStalled(cfg: Config, xs: seq<RawRecord>, m: Machine)
    requires Tracks(cfg, xs, m) && m.mode.Ended?
    ensures Stalled(cfg, xs, m)
  {
  }

  lemma ExecTracksOrStalls(cfg: Config, xs: seq<RawRecord>, x: RawRecord, m: Machine, ok: bool)
    requires Sampling(cfg) && cfg.limit == 0 && m.files != [] && TracksOrStalls(cfg, xs, m)
    ensures TracksOrStalls(cfg, xs + [x], Execute(cfg, m, x, ok))
  {
    if m.mode.Ended? {
      StalledSnoc(cfg, xs, x, m);
    } else {
      ExecTracks(cfg, xs, x, m);
      ExecStalls(cfg, xs, x, m);
      var m' := Execute(cfg, m, x, ok);
      if m'.mode.Ended? && Tracks(cfg, xs + [x], m') {
        EndedIsStalled(cfg, xs + [x], m');
      }
    }
  }

  lemma MemTracksOrStalls(cfg: Config, xs: seq<RawRecord>, a: Access, m: Machine)
    requires Sampling(cfg) && m.files != [] && xs != [] && TracksOrStalls(cfg, xs, m)
    ensures TracksOrStalls(cfg, xs[|xs| - 1 := AddOp(cfg.layout, Last(xs), a)], Attach(cfg, m, a))
  {
    if m.mode.Ended? {
      StalledChanged(cfg, xs, AddOp(cfg.layout, Last(xs), a), m);
    } else {
      MemTracks(cfg, xs, a, m);
    }
  }

  lemma {:induction false} RunTracksOrStalls(cfg: Config, es: seq<Event>)
    requires Sampling(cfg) && cfg.limit == 0
    ensures TracksOrStalls(cfg, Executed(cfg, es), Run(cfg, es))
    ensures Executed(cfg, es) == [] ==> Run(cfg, es) == INSTALLED
  {
    if es == [] {
      assert IsWindow(cfg, [], [[]], 0);
    } else {
      var before, e := es[..|es| - 1], es[|es| - 1];
      RunTracksOrStalls(cfg, before);
      var xs, m := Executed(cfg, before), Run(cfg, before);
      match e
      case Exec(vaddr, insn, ok) => ExecTracksOrStalls(cfg, xs, NewRecord(cfg, vaddr, insn), m, ok);
      case Mem(a) =>
        if xs != [] {
          MemTracksOrStalls(cfg, xs, a, m);
        }
    }
  }

  /** Whatever chunk files cannot be created: the files are the first windows of the executed stream, all but the
      newest complete, and once the vCPU has stopped the newest is too and the manifest has one row for each. */
  lemma SamplingSurvivesFailures(cfg: Config, es: seq<Event>)
    requires Sampling(cfg) && cfg.limit == 0
    ensures var xs, m := Executed(cfg, es), Run(cfg, es);
            && FirstWindows(cfg, xs, m.files)
            && (m.mode.Ended? ==> Stalled(cfg, xs, m) && Exit(cfg, m).rows == WindowRows(cfg, xs, |m.files|))
            && (!m.mode.Ended? ==> ManifestOf(cfg, xs, m))
  {
    RunTracksOrStalls(cfg, es);
    var xs, m := Executed(cfg, es), Run(cfg, es);
    if !m.mode.Ended? {
      TracksFirst(cfg, xs, m);
      TrackedManifest(cfg, xs, m);
    }
  }

  /** The files hold the windows up to the limit: every file but the newest is its window, and the newest is
      a prefix of it. */
  ghost predicate WindowsUpTo(cfg: Config, xs: seq<RawRecord>, files: seq<seq<RawRecord>>)
  {
    && files != [] && Last(files) <= Window(cfg, xs, |files| - 1)
    && forall j :: 0 <= j < |files| - 1 ==> files[j] == Window(cfg, xs, j)
  }

  lemma CutWindows(cfg: Config, xs: seq<RawRecord>, m: Machine, full: Machine)
    requires CaptureChunks.CutShort(m, full) && ExactlyWindows(cfg, xs, full.files)
    ensures WindowsUpTo(cfg, xs, m.files)
  {
    forall j | 0 <= j < |m.files| - 1 ensures m.files[j] == full.files[j] {
      assert m.files[..|m.files| - 1][j] == full.files[..|m.files| - 1][j];
    }
  }

  /** With an instruction limit, the windows up to it: all of them if it is not reached, and otherwise as many
      records of them as it allows. */
  lemma LimitedSampling(cfg: Config, es: seq<Event>)
    requires Sampling(cfg) && cfg.limit > 0 && AllOpen(es)
    ensures var free, xs, m := cfg.(limit := 0), Executed(cfg, es), Run(cfg, es);
            if m.mode.AtLimit? then WindowsUpTo(free, xs, m.files) && |Flatten(m.files)| == cfg.limit
            else ExactlyWindows(free, xs, m.files)
  {
    var free := cfg.(limit := 0);
    var xs, m, full := Executed(cfg, es), Run(cfg, es), Run(free, es);
    CaptureChunks.LimitCutsTheCapture(cfg, es);
    CaptureChunks.ExecutedSame(cfg, free, es);
    assert ExactlyWindows(free, xs, full.files) by {
      SamplingRecordsExactlyTheWindows(free, es);
    }
    if m.mode.AtLimit? {
      CutWindows(free, xs, m, full);
    }
  }

  /** The stream xs stops after its n-th window was complete and before the next one, which is wanted. */
  predicate StopsInGap(cfg: Config, xs: seq<RawRecord>, n: nat)
  {
    n > 0 && WindowStart(cfg, xs, n - 1) + cfg.sampleLen < |xs| && n != cfg.sampleCount
  }

  /** What the manifest should hold at exit, and what it holds when the run ends inside a gap. */
  ghost predicate ManifestOf(cfg: Config, xs: seq<RawRecord>, m: Machine)
    requires m.files != []
  {
    var rows := WindowRows(cfg, xs, |m.files|);
    Exit(cfg, m).rows == if xs == [] then []
                         else if StopsInGap(cfg, xs, |m.files|) then rows + [Last(rows)]
                         else rows
  }

  lemma TrackedManifest(cfg: Config, xs: seq<RawRecord>, m: Machine)
    requires Sampling(cfg) && TracksAll(cfg, xs, m)
    ensures ManifestOf(cfg, xs, m)
  {
    var n := |m.files|;
    assert IsWindow(cfg, xs, m.files, n - 1);
    var newest := WindowRows(cfg, xs, n)[n - 1];
    assert newest == Row(n - 1, WindowStart(cfg, xs, n - 1), |Last(m.files)|);
    assert WindowRows(cfg, xs, n) == WindowRows(cfg, xs, n - 1) + [newest];
  }

  /** The manifest at exit: one row per non-empty window, and, exactly when the stream stops between two windows,
      the last row a second time. */
  lemma ManifestAtExit(cfg: Config, es: seq<Event>)
    requires Sampling(cfg) && cfg.limit == 0 && AllOpen(es)
    ensures ManifestOf(cfg, Executed(cfg, es), Run(cfg, es))
  {
    RunTracks(cfg, es);
    TrackedManifest(cfg, Executed(cfg, es), Run(cfg, es));
  }

  // ---- the manifest of a run stopped at its limit ----

  /** A machine stopped at the limit, next to the one that goes on: its last file is short, and its rows are
      those of the windows before it. */
  ghost predicate StoppedAt(free: Config, xs: seq<RawRecord>, m: Machine)
  {
    && m.files != []
    && |Last(m.files)| < free.sampleLen
    && m.rows == WindowRows(free, xs, |m.files| - 1)
    && m.start == WindowStart(free, xs, |m.files| - 1) < |xs|
  }

  ghost predicate StopKept(cfg: Config, xs: seq<RawRecord>, m: Machine)
  {
    m.mode.AtLimit? ==> StoppedAt(cfg.(limit := 0), xs, m)
  }

  /** The callback of a gap that meets the limit has just opened one more chunk. */
  lemma StopInGap(cfg: Config, xs: seq<RawRecord>, x: RawRecord, m: Machine, c: nat)
    requires Sampling(cfg) && InGap(cfg.(limit := 0), xs, m, c) && m.stream == |xs| + 1 && !m.mode.AtLimit?
    requires Skip(cfg, m, c, x, true).mode.AtLimit?
    ensures StoppedAt(cfg.(limit := 0), xs + [x], Skip(cfg, m, c, x, true))
  {
    var free := cfg.(limit := 0);
    OpenSnoc(free, xs, x, m.files);
    RowsSnoc(free, xs, x, m.files, |m.files|);
  }

  /** The one inside a window. */
  lemma StopInWindow(cfg: Config, xs: seq<RawRecord>, x: RawRecord, m: Machine)
    requires Sampling(cfg) && m.mode.Recording? && Tracks(cfg.(limit := 0), xs, m)
    requires |Last(m.files)| < cfg.sampleLen
    ensures StoppedAt(cfg.(limit := 0), xs + [x], m.(stream := m.stream + 1, mode := AtLimit))
  {
    var free := cfg.(limit := 0);
    var n := |m.files|;
    assert IsWindow(free, xs, m.files, n - 1);
    StartSnoc(free, xs, x, n - 1);
    RowsSnoc(free, xs, x, m.files, n - 1);
  }

  /** A window that is complete is closed, and then it is a gap of no ticks. */
  lemma CloseIntoGap(cfg: Config, xs: seq<RawRecord>, m: Machine)
    requires Sampling(cfg) && m.mode.Recording? && Tracks(cfg, xs, m)
    requires |xs| == NewestEnd(cfg, xs, m.files) && (cfg.sampleCount > 0 ==> |m.files| < cfg.sampleCount)
    ensures InGap(cfg, xs, Close(cfg, m.(stream := m.stream + 1)), 0)
  {
    var n := |m.files|;
    assert IsWindow(cfg, xs, m.files, n - 1);
    var closed := Close(cfg, m.(stream := m.stream + 1));
    assert closed.rows == WindowRows(cfg, xs, n);
  }

  lemma StopRecording(cfg: Config, xs: seq<RawRecord>, x: RawRecord, m: Machine)
    requires Sampling(cfg) && m.mode.Recording? && Tracks(cfg.(limit := 0), xs, m)
    requires RecordOrEnd(cfg, m.(stream := m.stream + 1), x, true).mode.AtLimit?
    ensures StoppedAt(cfg.(limit := 0), xs + [x], RecordOrEnd(cfg, m.(stream := m.stream + 1), x, true))
  {
    var free, seen := cfg.(limit := 0), m.(stream := m.stream + 1);
    NewestLength(free, xs, m);
    if |Last(m.files)| < cfg.sampleLen {
      StopInWindow(cfg, xs, x, m);
    } else {
      CloseIntoGap(free, xs, m);
      assert Close(free, seen) == Close(cfg, seen);
      StopInGap(cfg, xs, x, Close(cfg, seen), 0);
    }
  }

  lemma StopExec(cfg: Config, xs: seq<RawRecord>, x: RawRecord, m: Machine)
    requires Sampling(cfg) && !m.mode.AtLimit? && Tracks(cfg.(limit := 0), xs, m)
    requires m.files != [] && Execute(cfg, m, x, true).mode.AtLimit?
    ensures StoppedAt(cfg.(limit := 0), xs + [x], Execute(cfg, m, x, true))
  {
    match m.mode
    case Gap(c) =>
      ExecGap(cfg, m, x, c);
      StopInGap(cfg, xs, x, m.(stream := m.stream + 1), c);
    case Recording =>
      CaptureChunks.ExecuteRecording(cfg, m, x, true);
      StopRecording(cfg, xs, x, m);
    case Ended =>
  }

  /** Once stopped, more instructions and memory operations change nothing that was said. */
  lemma StoppedSnoc(cfg: Config, xs: seq<RawRecord>, x: RawRecord, m: Machine, full: Machine)
    requires Sampling(cfg) && StoppedAt(cfg, xs, m) && FirstWindows(cfg, xs, full.files)
    requires |m.files| <= |full.files|
    ensures StoppedAt(cfg, xs + [x], m)
  {
    StartSnoc(cfg, xs, x, |m.files| - 1);
    RowsSnoc(cfg, xs, x, full.files, |m.files| - 1);
  }

  lemma StoppedChanged(cfg: Config, xs: seq<RawRecord>, y: RawRecord, m: Machine, full: Machine)
    requires Sampling(cfg) && xs != [] && StoppedAt(cfg, xs, m) && FirstWindows(cfg, xs, full.files)
    requires |m.files| <= |full.files| && Qualifies(cfg, y) == Qualifies(cfg, Last(xs))
    ensures StoppedAt(cfg, xs[|xs| - 1 := y], m)
  {
    StartSame(cfg, xs, xs[|xs| - 1 := y], |m.files| - 1);
    RowsChanged(cfg, xs, y, full.files, |m.files| - 1);
  }

  lemma TracksFirst(cfg: Config, xs: seq<RawRecord>, m: Machine)
    requires Tracks(cfg, xs, m)
    ensures FirstWindows(cfg, xs, m.files)
  {
  }

  /** A machine with a limit next to the one without. */
  ghost predicate Beside(cfg: Config, xs: seq<RawRecord>, m: Machine, full: Machine)
  {
    && m.files != [] && FirstWindows(cfg.(limit := 0), xs, full.files)
    && if m.mode.AtLimit? then |m.files| <= |full.files| else Tracks(cfg.(limit := 0), xs, m)
  }

  lemma RunsBeside(cfg: Config, es: seq<Event>)
    requires Sampling(cfg) && cfg.limit > 0 && AllOpen(es)
    ensures Beside(cfg, Executed(cfg, es), Run(cfg, es), Run(cfg.(limit := 0), es))
  {
    var free := cfg.(limit := 0);
    RunTracks(free, es);
    CaptureChunks.ExecutedSame(cfg, free, es);
    TracksFirst(free, Executed(cfg, es), Run(free, es));
    CaptureChunks.LimitCutsTheCapture(cfg, es);
  }

  lemma StopKeptExec(cfg: Config, xs: seq<RawRecord>, x: RawRecord, m: Machine, full: Machine)
    requires Sampling(cfg) && Beside(cfg, xs, m, full) && StopKept(cfg, xs, m)
    ensures StopKept(cfg, xs + [x], Execute(cfg, m, x, true))
  {
    if m.mode.AtLimit? {
      StoppedSnoc(cfg.(limit := 0), xs, x, m, full);
    } else if Execute(cfg, m, x, true).mode.AtLimit? {
      StopExec(cfg, xs, x, m);
    }
  }

  lemma StopKeptMem(cfg: Config, xs: seq<RawRecord>, a: Access, m: Machine, full: Machine)
    requires Sampling(cfg) && xs != [] && Beside(cfg, xs, m, full) && StopKept(cfg, xs, m)
    ensures StopKept(cfg, xs[|xs| - 1 := AddOp(cfg.layout, Last(xs), a)], Attach(cfg, m, a))
  {
    if m.mode.AtLimit? {
      StoppedChanged(cfg.(limit := 0), xs, AddOp(cfg.layout, Last(xs), a), m, full);
    }
  }

  lemma StopKeptStep(cfg: Config, xs: seq<RawRecord>, e: Event, m: Machine, full: Machine)
    requires Sampling(cfg) && Beside(cfg, xs, m, full) && StopKept(cfg, xs, m) && (e.Exec? ==> e.canOpen)
    requires xs == [] ==> !m.mode.AtLimit? && m == INSTALLED
    ensures StopKept(cfg, Observe(cfg, xs, e), Step(cfg, m, e))
  {
    match e
    case Exec(vaddr, insn, _) => StopKeptExec(cfg, xs, NewRecord(cfg, vaddr, insn), m, full);
    case Mem(a) =>
      if xs != [] {
        StopKeptMem(cfg, xs, a, m, full);
      }
  }

  lemma {:induction false} RunStops(cfg: Config, es: seq<Event>)
    requires Sampling(cfg) && cfg.limit > 0 && AllOpen(es)
    ensures StopKept(cfg, Executed(cfg, es), Run(cfg, es))
    ensures Executed(cfg, es) == [] ==> Run(cfg, es) == INSTALLED
  {
    if es == [] {
    } else {
      var before, e := es[..|es| - 1], es[|es| - 1];
      assert e in es;
      RunStops(cfg, before);
      RunsBeside(cfg, before);
      StopKeptStep(cfg, Executed(cfg, before), e, Run(cfg, before), Run(cfg.(limit := 0), before));
    }
  }

  /** What the manifest of a run stopped at its limit holds: a row per file, but for a last file that is empty.
      (Neither windows nor the exit look at the limit, so the configuration without it does as well.) */
  ghost predicate StoppedManifest(free: Config, xs: seq<RawRecord>, m: Machine)
    requires m.files != []
  {
    var n := |m.files| - 1;
    Exit(free, m).rows == WindowRows(free, xs, n)
                          + if Last(m.files) == [] then []
                            else [Row(n, WindowStart(free, xs, n), |Last(m.files)|)]
  }

  lemma FullWindows(cfg: Config, xs: seq<RawRecord>, files: seq<seq<RawRecord>>, n: nat)
    requires Sampling(cfg) && FirstWindows(cfg, xs, files) && n < |files|
    ensures |Flatten(files[..n])| == n * cfg.sampleLen
  {
    forall j | 0 <= j < n ensures |files[..n][j]| == cfg.sampleLen {
      assert IsWindow(cfg, xs, files, j);
    }
    CaptureChunks.FullLength(files[..n], cfg.sampleLen);
  }

  lemma StoppedLength(cfg: Config, xs: seq<RawRecord>, m: Machine, full: Machine)
    requires Sampling(cfg) && CaptureChunks.CutShort(m, full) && FirstWindows(cfg, xs, full.files)
    ensures |Flatten(m.files)| == (|m.files| - 1) * cfg.sampleLen + |Last(m.files)|
  {
    var n := |m.files| - 1;
    FullWindows(cfg, xs, full.files, n);
    CaptureChunks.FlattenLast(m.files, Last(m.files));
  }

  /** A sampled run with a limit: the ordinary manifest if the limit is not reached; otherwise a row per file,
      and one more file, empty and without a row, exactly when the limit is a multiple of the window length. */
  lemma LimitedManifest(cfg: Config, es: seq<Event>)
    requires Sampling(cfg) && cfg.limit > 0 && AllOpen(es)
    ensures var free, xs, m := cfg.(limit := 0), Executed(cfg, es), Run(cfg, es);
            if !m.mode.AtLimit? then ManifestOf(free, xs, m)
            else StoppedManifest(free, xs, m) && (Last(m.files) == [] <==> cfg.limit % cfg.sampleLen == 0)
  {
    var free := cfg.(limit := 0);
    var xs, m, full := Executed(cfg, es), Run(cfg, es), Run(free, es);
    CaptureChunks.LimitCutsTheCapture(cfg, es);
    CaptureChunks.ExecutedSame(cfg, free, es);
    if m.mode.AtLimit? {
      RunStops(cfg, es);
      RunTracks(free, es);
      TracksFirst(free, xs, full);
      StoppedLength(free, xs, m, full);
      CaptureChunks.BlockRemainder(cfg.limit, cfg.sampleLen, |m.files| - 1, |Last(m.files)|);
    } else {
      ManifestAtExit(free, es);
    }
  }

  // ---- the exceptions, on two instructions ----

  const ONE_AND_ONE: Config := Config(Layout(false, false), 0, X86, 0, 0, 1, 1, 0, false)

  function TwoInsns(): seq<Event>
  {
    [Exec(0x1000, [0x90], true), Exec(0x1001, [0x90], true)]
  }

  lemma RunOfTwo(cfg: Config)
    ensures var a, b := NewRecord(cfg, 0x1000, [0x90]), NewRecord(cfg, 0x1001, [0x90]);
            && Run(cfg, TwoInsns()) == Execute(cfg, Execute(cfg, INSTALLED, a, true), b, true)
            && Executed(cfg, TwoInsns()) == [a, b]
  {
    var es := TwoInsns();
    assert es[..1] == [es[0]] && es[..1][..0] == [];
    assert Run(cfg, es[..1]) == Step(cfg, Run(cfg, []), es[0]);
    assert Executed(cfg, es[..1]) == Observe(cfg, Executed(cfg, []), es[0]);
  }

  /** Windows of one instruction and gaps of one: a run of two instructions ends in a gap and writes its only
      window's row twice. */
  lemma RowCanRepeat()
    ensures Sampling(ONE_AND_ONE) && AllOpen(TwoInsns())
    ensures Exit(ONE_AND_ONE, Run(ONE_AND_ONE, TwoInsns())).rows == [Row(0, 0, 1), Row(0, 0, 1)]
  {
    RunOfTwo(ONE_AND_ONE);
  }

  /** Chunks of one instruction and a limit of one: on two instructions, sampling with no gap leaves an empty
      second file, and rotation does not. */
  lemma ZeroGapCanAddAFile()
    ensures var cfg := ONE_AND_ONE.(sampleLen := 0, rotate := 1, limit := 1);
            var rot, sam := Run(cfg, TwoInsns()), Run(CaptureChunks.ZeroGap(cfg), TwoInsns());
            |rot.files| == 1 && sam.files == rot.files + [[]]
  {
    var cfg := ONE_AND_ONE.(sampleLen := 0, rotate := 1, limit := 1);
    RunOfTwo(cfg);
    RunOfTwo(CaptureChunks.ZeroGap(cfg));
  }

  /** With the all-instruction clock window j starts at stream position j * (N + G). */
  lemma {:induction false} AllClockStarts(cfg: Config, xs: seq<RawRecord>, j: nat)
    requires !cfg.clockUser && cfg.sampleLen > 0
    requires j * (cfg.sampleLen + cfg.sampleGap) <= |xs|
    ensures WindowStart(cfg, xs, j) == j * (cfg.sampleLen + cfg.sampleGap)
  {
    if j == 0 {
    } else {
      var p := cfg.sampleLen + cfg.sampleGap;
      assert j * p == (j - 1) * p + p;
      AllClockStarts(cfg, xs, j - 1);
      AllClockSeek(cfg, xs, (j - 1) * p + cfg.sampleLen, cfg.sampleGap);
    }
  }

  lemma {:induction false} AllClockSeek(cfg: Config, xs: seq<RawRecord>, from: nat, k: nat)
    requires !cfg.clockUser && from + k <= |xs|
    ensures Seek(cfg, xs, from, k) == from + k
    decreases k
  {
    if k == 0 {
    } else {
      AllClockSeek(cfg, xs, from + 1, k - 1);
    }
  }
}
