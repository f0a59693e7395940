/** The stages put together: what the plugin writes, read back, filtered and converted. */
module Pipeline {
  import opened Bytes
  import opened Capture
  import opened CaptureChunks
  import opened CaptureSpec
  import opened CaptureStream
  import opened CaptureWindows
  import opened ChampSim
  import opened Convert
  import opened ConvertLaws
  import opened ConvertMeaning
  import opened IdleFilter
  import opened IdleLaws
  import opened IdleSpec
  import opened RawFormat

  /** Reading a chunk back gives exactly the header, instructions and memory operations captured, and no
      error path is taken, the corrupt-value one included. */
  lemma ChunkReadsBack(cfg: Config, rs: seq<RawRecord>)
    requires ValidRecords(cfg.layout, rs)
    ensures var bytes := ChunkBytes(cfg, rs);
            && ReadHeader(bytes) == Opened(3, cfg.vcpu, ArchByte(cfg.arch), cfg.layout)
            && Scan(cfg.layout, bytes[FILE_HEADER_SIZE..]) == Scanned(Framed(cfg.layout, rs), End)
  {
    var body := SerializeAll(cfg.layout, rs);
    FileHeaderRoundTrip(cfg.vcpu, ArchByte(cfg.arch), cfg.layout, body);
    assert ChunkBytes(cfg, rs)[FILE_HEADER_SIZE..] == body;
    ScanRoundTrip(cfg.layout, rs);
  }

  /** Every chunk file of every run, whatever the limits, windows and rotations. */
  lemma CaptureReadsBack(cfg: Config, es: seq<Event>, j: nat)
    requires j < |Run(cfg, es).files|
    ensures var rs := Run(cfg, es).files[j];
            var bytes := FilesBytes(cfg, Run(cfg, es).files)[j];
            && ReadHeader(bytes) == Opened(3, cfg.vcpu, ArchByte(cfg.arch), cfg.layout)
            && Scan(cfg.layout, bytes[FILE_HEADER_SIZE..]) == Scanned(Framed(cfg.layout, rs), End)
  {
    RunValid(cfg, es);
    assert Run(cfg, es).files[j] in Run(cfg, es).files;
    ChunkReadsBack(cfg, Run(cfg, es).files[j]);
  }

  /** Converting a captured chunk converts its records, with no error. */
  lemma ChunkConverts(decode: Decoder, cfg: Config, rs: seq<RawRecord>)
    requires ValidRecords(cfg.layout, rs)
    ensures ConversionOf(decode, ChunkBytes(cfg, rs), 0)
            == Converted(Output(decode, ArchByte(cfg.arch), rs, End), |rs|, false)
  {
    ChunkReadsBack(cfg, rs);
    assert Records(Framed(cfg.layout, rs)) == rs;
  }

  /** The converter's outputs for several files, concatenated. */
  function ConvertAll(decode: Decoder, files: seq<seq<Byte>>): seq<OutRecord>
  {
    if files == [] then [] else
    var c := ConversionOf(decode, files[0], 0);
    (if c.Converted? then c.out else []) + ConvertAll(decode, files[1..])
  }

  lemma ConvertFirst(decode: Decoder, cfg: Config, files: seq<seq<RawRecord>>)
    requires files != []
    ensures var c := ConversionOf(decode, ChunkBytes(cfg, files[0]), 0);
            ConvertAll(decode, FilesBytes(cfg, files))
            == (if c.Converted? then c.out else []) + ConvertAll(decode, FilesBytes(cfg, files[1..]))
  {
    assert FilesBytes(cfg, files)[0] == ChunkBytes(cfg, files[0]);
    assert FilesBytes(cfg, files)[1..] == FilesBytes(cfg, files[1..]);
  }

  lemma {:induction false} ChunksConvert(decode: Decoder, cfg: Config, files: seq<seq<RawRecord>>)
    requires forall f :: f in files ==> ValidRecords(cfg.layout, f)
    ensures ConvertAll(decode, FilesBytes(cfg, files)) == ChunkByChunk(decode, ArchByte(cfg.arch), files)
  {
    if files == [] {
    } else {
      assert files[0] in files;
      ChunkConverts(decode, cfg, files[0]);
      ConvertFirst(decode, cfg, files);
      ChunksConvert(decode, cfg, files[1..]);
    }
  }

  /** A rotated capture, written to files, each file converted, and the traces concatenated: the conversion
      of the unrotated capture's one file, minus exactly the records that are last in their chunk and
      CONDITIONAL or OTHER. */
  lemma RotatedPipeline(decode: Decoder, cfg: Config, es: seq<Event>)
    requires cfg.sampleLen == 0 && AllOpen(es)
    ensures var plain := cfg.(rotate := 0);
            var chunks := Run(cfg, es).files;
            var whole := ConvertAll(decode, FilesBytes(plain, Run(plain, es).files));
            && |whole| <= |Flatten(chunks)|
            && ConvertAll(decode, FilesBytes(cfg, chunks))
               == Select(whole, Survivors(decode, ArchByte(cfg.arch), chunks, |whole|))
  {
    var plain, chunks := cfg.(rotate := 0), Run(cfg, es).files;
    var arch := ArchByte(cfg.arch);
    RunValid(cfg, es);
    RunValid(plain, es);
    ChunksConvert(decode, cfg, chunks);
    ChunksConvert(decode, plain, Run(plain, es).files);
    RotationKeepsTheStream(cfg, es);
    var all := Flatten(chunks);
    assert ChunkByChunk(decode, arch, [all]) == Output(decode, arch, all, End) by {
      assert [all][1..] == [] && ChunkByChunk(decode, arch, []) == [];
    }
    ChunkedConversion(decode, arch, chunks);
  }

  /** What one memory callback becomes in the final trace: its own address and width, the physical address
      unless it is unknown or device memory, and its value padded with zeros. */
  lemma AccessReachesSlot(l: Layout, a: Access)
    ensures var s, n := SlotOf(MakeOp(l, a)), AccessSize(a.shift);
            && s.addr == a.vaddr && s.size == n
            && s.pa == (if l.hasPa && a.phys.Some? && !a.phys.value.io then a.phys.value.addr else 0)
            && s.value == (if l.hasValues && n <= VALUE_API_CAP && a.value.Some?
                           then Fit(Fit(a.value.value, n), MAX_MEM_VALUE_SIZE) else NO_SLOT.value)
  {
  }

  /** An unlimited, unchunked capture, converted: one record for every instruction callback, in order, each with
      its own first seven memory callbacks and its direction, less a last one that has none. */
  lemma WholePipeline(decode: Decoder, cfg: Config, es: seq<Event>)
    requires cfg.limit == 0 && cfg.rotate == 0 && cfg.sampleLen == 0 && AllOpen(es)
    ensures var xs, files := Executed(cfg, es), FilesBytes(cfg, Run(cfg, es).files);
            && |files| == 1
            && ConversionOf(decode, files[0], 0)
               == Converted(Output(decode, ArchByte(cfg.arch), xs, End), |xs|, false)
            && AllInstructions(cfg, es, xs)
            && TraceOf(decode, ArchByte(cfg.arch), xs, End, ConversionOf(decode, files[0], 0).out)
  {
    ExecutedIsTheRun(cfg, es);
    OutputMeaning(decode, ArchByte(cfg.arch), Executed(cfg, es), End);
    RunValid(cfg, es);
    RotationKeepsTheStream(cfg, es);
    var xs := Executed(cfg, es);
    assert cfg.(rotate := 0) == cfg && xs[..|xs|] == xs;
    assert Run(cfg, es).files == [xs] && xs in Run(cfg, es).files;
    ChunkConverts(decode, cfg, xs);
  }

  /** A sampled capture, converted file by file: trace j is window j of the executed instructions. */
  lemma SampledPipeline(decode: Decoder, cfg: Config, es: seq<Event>, j: nat)
    requires Sampling(cfg) && cfg.limit == 0 && AllOpen(es) && j < |Run(cfg, es).files|
    ensures var w := Window(cfg, Executed(cfg, es), j);
            ConversionOf(decode, FilesBytes(cfg, Run(cfg, es).files)[j], 0)
            == Converted(Output(decode, ArchByte(cfg.arch), w, End), |w|, false)
  {
    RunValid(cfg, es);
    SamplingRecordsExactlyTheWindows(cfg, es);
    var f := Run(cfg, es).files[j];
    assert f in Run(cfg, es).files && f == Window(cfg, Executed(cfg, es), j);
    ChunkConverts(decode, cfg, f);
  }

  /** Filtering a captured x86 chunk never crashes, keeps exactly the records outside idle runs, and converts
      to the trace of those records. */
  lemma FilteredPipeline(decode: Decoder, cfg: Config, rs: seq<RawRecord>, r: FilterResult)
    requires ValidRecords(cfg.layout, rs) && cfg.arch == X86 && Filters(ChunkBytes(cfg, rs), r)
    ensures r.Done?
    ensures var kept := Records(Filtered(Framed(cfg.layout, rs)));
            ConversionOf(decode, r.out, 0) == Converted(Output(decode, 0, kept, End), |kept|, false)
  {
    ChunkReadsBack(cfg, rs);
    OutputReadsBack(ChunkBytes(cfg, rs), r);
  }
}
