# Verified model of the trace pipeline

A Dafny model of how a ChampSim trace comes to be: the QEMU plugin that captures instructions, the filter
and the converter that turn the capture into a trace, the PIN tracer that records threads of a native
process, the tools that check and cut traces, and the two file-system protocols around them (the node-local
trace cache and batch submission). `dafny verify dfyconfig.toml` checks everything.

Code that changes state step by step is modelled in that form: callbacks are methods of classes with the
original's counters and flags, loops are loops, byte buffers are arrays. Each such method is proved against a
specification on plain values, and the laws are proved about the specification, for every input, event
sequence or interleaving.

| module | models |
|---|---|
| `Bytes`, `RawFormat`, `RawLayout`, `TraceReader` | the raw capture format, its functional parser, its layout byte by byte, and the buffered reader over a stream delivered in arbitrary slices |
| `CaptureSpec`, `CaptureStream`, `CaptureWindows`, `CaptureChunks` | one vCPU's capture as a machine on records (no bytes, no one-behind slot), and what it records of which callbacks |
| `Capture` | the plugin's callbacks with their pending slot, staging and stream buffers, proved to be that machine |
| `ChampSim`, `Convert`, `ConvertMeaning`, `ConvertLaws` | the output record, the converter's lookahead, what its output says, `-n` and chunk-by-chunk conversion |
| `IdleSpec`, `IdleFilter`, `IdleLaws` | idle runs on a whole trace, the two-state filter with its growable buffer, and its conservation laws |
| `IndirectTargets`, `Checker`, `CheckerLaws` | the checker's one-pass attribution, counters, report and acceptance checks, and what the checks mean |
| `Cutter` | record re-assembly and chunking |
| `PinSpec`, `PinRuns`, `PinLaws`, `PinTracer` | the PIN tracer's threads as a transition system, its invariants, when each thing happens to a thread, its objects and atomics |
| `Offsets`, `OffsetsText`, `Regions` | the `-offsets` list, what its text means, and where in a thread's own instructions its regions open |
| `TraceCache`, `FetchProgress` | `fetch` by any number of processes that may fail or be killed at any step, and how a call ends that is left alone |
| `SubmitReport`, `SubmitListing`, `SubmitProtocol`, `SubmitRuns`, `SubmitProgress` | submission, its report, its ledger, with a crash allowed between any two steps, and how an undisturbed submit ends |
| `SampleGap` | the gap formulas, tied to the sampling machine |
| `Pipeline` | the stages composed |

Conventions: zstd is the identity on bytes; instruction decoders are an arbitrary function whose branch code is
at most 7; instruction pointers are modulo 2^64; counters are unbounded. A PIN callback is one atomic step, and
any callback may come from any thread at any time; thread ids are not reused while in use. `-t` is at least 1.
Proofs that no window or chunk is missing assume every chunk file can be created; a chunk that cannot is treated on
its own (`CaptureChunks.OpenFailureKeepsChunks`, `CaptureWindows.SamplingSurvivesFailures`), as is the instruction
limit (`CaptureChunks.LimitCutsTheCapture`, `CaptureWindows.LimitedSampling`, `CaptureWindows.LimitedManifest`).

## What is not as one would expect

Each of these is a property that fails as first stated; the model proves exactly when it holds.

- `-n k` does not always give a prefix of the full output. When the record after the k-th has a cut-off or corrupt
  memory operation, a full run throws away the record it still holds, while `-n k` has already stopped and writes
  it (`ConvertLaws.LimitIsPrefix`, `ConvertLaws.LimitCanOutrunAnError`).
- Sampling with gap 0 is rotation but for one empty chunk file, left when an instruction limit that is a multiple
  of the window length is passed (`CaptureChunks.ZeroGapIsRotation`, `CaptureWindows.ZeroGapCanAddAFile`).
- A sampled run that exits inside a gap writes its last manifest row twice (`CaptureWindows.ManifestAtExit`,
  `CaptureWindows.RowCanRepeat`).
- The filter's counters are off by the HLTs a trace claims ran in user mode, which it counts as kernel when it
  replays them and not at all when it drops them (`IdleLaws.ExactBalance`, `IdleLaws.BalanceConditions`,
  `IdleLaws.UserHltsUnbalance`).
- `exit_on_done` fires when the threads that traced are those that are done, but a thread that ends its initial skip,
  or starts with nothing to skip, before the process is gone breaks that again, and nothing else does
  (`PinRuns.ExitMeansAllDone`, `PinRuns.AfterExit`, `PinRuns.ExitCanBeOutrun`).
- The `-offsets` knob is documented as absolute instruction offsets
  (tracer/pintool/pin/champsim_tracer_mt_roi_v3.cpp:273-281). A region opens at that instruction of its thread only if
  no skip overran its last basic block and the thread executed nothing uncounted. Code compiled while any thread is
  tracing has no fast-forward calls, so a thread that is still skipping then runs uncounted and its regions open late
  (`Regions.RegionsOpenWhereAsked`, `Regions.RegionCanOpenLate`). With `-trace_tid` that does not
  happen as long as no code compiled under an older count of tracing threads is executed (`Regions.TraceTidIsExact`).
- `-trace_only_registered_workers` is documented as keeping unregistered threads out of TRACING
  (tracer/pintool/pin/README.md:120). It does so only for threads that wait for the region of interest: the thread that
  opens the region, and every thread that starts after it was opened, trace without registering
  (`PinLaws.OnlyTheEntitledTrace`, `PinLaws.LateThreadTraces`, `PinLaws.UnregisteredCanTrace`).
- A capture that was cut inside the first four bytes of a record passes for complete; any later cut is reported
  (`RawLayout.CutInHead`, `RawLayout.CutInOp`).
- With the user clock, sgap's gap makes the windows span the run exactly when the gaps are as rich in user instructions
  as the run, which a run need not be (`SampleGap.UserClockCoversTheRun`, `SampleGap.UserClockCanFallShort`).
- A caller of `fetch` with a checksum the source does not have removes a good entry that others were already given
  (`TraceCache.WrongChecksumRemoves`, `TraceCache.GivenPathCanVanish`).
- `save_ledger` truncates before it writes, so a crash in between leaves a ledger that cannot be read
  (`SubmitRuns.CrashTearsTheLedger`, `SubmitRuns.QueuedJobCanLoseItsRecord`).
- In `report_indirect_targets` a comment (tools/trace_sanity_check/trace_sanity_check.cpp:598-599) says that a PC
  without a target is counted; the code skips it. The model follows the code, and `IndirectTargets.ReportAccountsForAll`
  says what is missing as a result.
- The plugin prints a gap hint that is wrong for the default user clock (`SampleGap.HintFallsShort`,
  `SampleGap.HintCanFallShort`).

## Model

| member | source | states |
|---|---|---|
| RawFormat.HeaderFields | tracer/rpoint-cs/plugin/champsim_tracer.c:190-194 | the four bit fields packed by the plugin come back out of the word through the reader's four decoders, each unaffected by the others |
| RawFormat.OpRoundTrip | tracer/rpoint-cs/converter/raw2champsim.c:620-662 | a serialized memory operation, whatever follows it, is read back exactly, physical address and value included, for every layout |
| RawFormat.RecordRoundTrip | tracer/rpoint-cs/converter/raw2champsim.c:563-666 | a serialized record followed by any bytes is read back as that record, consuming exactly its own bytes |
| RawFormat.ScanRoundTrip | tracer/rpoint-cs/converter/raw2champsim.c:560-666 | any sequence of valid records, serialized, is read back unchanged and the reader stops at the end of the stream: no error path, the corrupt has_value one included, is taken |
| RawFormat.FileHeaderRoundTrip | tracer/rpoint-cs/converter/raw2champsim.c:469-509 | the 16-byte header the plugin writes is accepted and gives back version, vCPU, architecture and both flags |
| RawFormat.RecordSizeBound | tracer/rpoint-cs/plugin/champsim_tracer.c:177-180 | no record is longer than 601 bytes, the bound the plugin asserts at compile time |
| RawLayout.HeaderBytes | tracer/rpoint-cs/plugin/champsim_tracer.c:644-660 | the sixteen bytes of a file header one by one: "CSTF", version 3, vCPU, architecture, the two flags, the value cap of 16 or 0, and a zero |
| RawLayout.HeaderMeaning | tracer/rpoint-cs/converter/raw2champsim.c:469-509 | a file is opened exactly if it has sixteen bytes, the magic, version 2 or 3 and, in version 3, an architecture byte of 0 or 1; what version 2 leaves out is assumed; each refusal is reported exactly for its cause, the first one first |
| RawLayout.RecordBytes | tracer/rpoint-cs/plugin/champsim_tracer.c:479-530 | where the vCPU, privilege, sizes, instruction pointer, instruction and operations of a record sit, bit by bit in the packed word and byte by byte after it |
| RawLayout.OpBytes | tracer/rpoint-cs/plugin/champsim_tracer.c:500-524 | where the address, the physical address if there is one, the width, the flags and the value of an operation sit |
| RawLayout.RecordRewritten | tracer/rpoint-cs/converter/raw2champsim.c:563-666 | the round trip the other way: any record a reader accepts is well formed, and written again it gives the bytes consumed, up to the unused bits of the packed word |
| RawLayout.NoInstruction | tracer/rpoint-cs/converter/raw2champsim.c:571-576 | a record is refused for its size exactly if the size bits are zero |
| RawLayout.CutInHead | tracer/rpoint-cs/converter/raw2champsim.c:564-600 | a file cut before a record's operations: fewer than four bytes pass for the end of the trace, anything longer is reported as truncated in the field it was cut in |
| RawLayout.CutInOp | tracer/rpoint-cs/converter/raw2champsim.c:620-662 | a file cut inside any operation of any record is reported as truncated there, in the value exactly if the cut is in the value |
| RawLayout.ValueNotAnnounced | tracer/rpoint-cs/converter/raw2champsim.c:633-639 | a value in a file whose header announces none stops the reader as corrupt, at the first operation that has one |
| CaptureSpec.MakeOp | tracer/rpoint-cs/plugin/champsim_tracer.c:921-962 | what a memory callback stores: write bit, PA_VALID exactly when a physical address was wanted and found, IO only then, the access width (0 when it does not fit a byte), and a value exactly when values are on, the access is at most 16 bytes wide and QEMU has one; the result is always a well-formed operation |
| CaptureSpec.RunValid | tracer/rpoint-cs/plugin/champsim_tracer.c:700-962 | every record of every file of every run is well formed, so the round trips apply to it |
| CaptureStream.ExecsAreAll | tracer/rpoint-cs/plugin/champsim_tracer.c:700-741 | the positions that stand for instructions are those of all instruction callbacks, in order, and of nothing else |
| CaptureStream.ExecutedIsTheRun | tracer/rpoint-cs/plugin/champsim_tracer.c:889-961 | record i of the executed stream is that of the i-th instruction callback: its address and bytes, the vCPU, privilege 1 exactly at or above the kernel threshold, and exactly the first seven of the memory callbacks before the next instruction, in order, each with its own address, direction, width, physical address and value |
| CaptureStream.ClockMeaning | tracer/rpoint-cs/plugin/champsim_tracer.c:755-789 | with clock=user an instruction ticks exactly if its callback's address is below the kernel threshold, and with clock=all always |
| CaptureWindows.SeekMeaning | tracer/rpoint-cs/plugin/champsim_tracer.c:770-789 | the position where the next window begins is a clock-qualifying instruction preceded, since the last window, by exactly sample_gap clock ticks; it is past the end exactly when there are not enough |
| CaptureWindows.SamplingRecordsExactlyTheWindows | tracer/rpoint-cs/plugin/champsim_tracer.c:742-962 | for every event stream, window length, gap, count and clock: the chunk files are exactly the declarative windows of the executed stream, none missing, and every record in them is, field by field and operation by operation, that of its own instruction callback and of the memory callbacks before the next one |
| CaptureWindows.SamplingSurvivesFailures | tracer/rpoint-cs/plugin/champsim_tracer.c:791-862 | whichever chunk files cannot be created: the files are the first windows of the executed stream, all but the newest complete; once the vCPU has stopped the newest is complete too, and the manifest has one row for each |
| CaptureWindows.LimitedSampling | tracer/rpoint-cs/plugin/champsim_tracer.c:742-869 | sampling with an instruction limit: the same windows, all of them if the limit is not reached, else exactly `limit` records of them, the newest file being a prefix of its window |
| CaptureWindows.ManifestAtExit | tracer/rpoint-cs/plugin/champsim_tracer.c:683-694 | the manifest at exit is one row per non-empty window with its number, stream position and length; exactly when the stream stops after a complete window and before a next one that is wanted, the last row appears twice |
| CaptureWindows.LimitedManifest | tracer/rpoint-cs/plugin/champsim_tracer.c:816-869 | with an instruction limit: the same manifest if it is not reached, otherwise one row per file, and one more file, empty and without a row, exactly when the limit is a multiple of the window length |
| CaptureWindows.RowCanRepeat | tracer/rpoint-cs/plugin/champsim_tracer.c:833-843 | a concrete run of two instructions whose manifest has one row twice |
| CaptureWindows.ZeroGapCanAddAFile | tracer/rpoint-cs/plugin/champsim_tracer.c:845-869 | a concrete run of two instructions on which sampling with gap 0 leaves an empty second file and rotation does not |
| CaptureWindows.AllClockStarts | tracer/rpoint-cs/plugin/champsim_tracer.c:770-801 | with clock=all window j starts at stream index j * (sample_len + sample_gap) |
| CaptureChunks.RotationKeepsTheStream | tracer/rpoint-cs/plugin/champsim_tracer.c:871-886 | the concatenated chunks of a rotated capture are the one file of the unrotated capture, cut at the instruction limit alike |
| CaptureChunks.RotationManifest | tracer/rpoint-cs/plugin/champsim_tracer.c:683-694 | the rotation manifest has one row per non-empty chunk, whose start is the sum of the counts before it, and every chunk but the last is full |
| CaptureChunks.LimitCutsTheCapture | tracer/rpoint-cs/plugin/champsim_tracer.c:864-869 | with a limit, chunk for chunk and record for record, the capture is the unlimited one cut after `limit` records, whatever the rotation, the sampling and the failed opens |
| CaptureChunks.ZeroGapIsRotation | tracer/rpoint-cs/plugin/champsim_tracer.c:805-886 | sampling with gap 0 and clock=all writes the manifest and the chunks of rotate= with the same length, with one exact exception: a limit that is a multiple of the length and is passed leaves one more, empty, chunk |
| CaptureChunks.OpenFailureKeepsChunks | tracer/rpoint-cs/plugin/champsim_tracer.c:871-886 | when a chunk file cannot be created, this vCPU stops: no file changes afterwards, whatever the guest does, and the manifest has no row for the chunk that was never created |
| Capture.StageOp | tracer/rpoint-cs/plugin/champsim_tracer.c:500-524 | appends to the staging buffer exactly the bytes of one memory operation |
| Capture.StageRecord | tracer/rpoint-cs/plugin/champsim_tracer.c:479-524 | the staging buffer holds exactly the serialized record, and never overflows |
| Capture.ChunkStream.FlushBuffer | tracer/rpoint-cs/plugin/champsim_tracer.c:385-422 | flushing moves bytes to the file without changing what the chunk holds, and empties the buffer of an open chunk |
| Capture.ChunkStream.BufferAppend | tracer/rpoint-cs/plugin/champsim_tracer.c:458-466 | whatever flushes happen, the chunk gains exactly the data, and the 16 MiB buffer never overflows |
| Capture.ChunkStream.Close | tracer/rpoint-cs/plugin/champsim_tracer.c:424-454 | the finished file holds exactly what was appended since it was opened |
| Capture.Vcpu.constructor | tracer/rpoint-cs/plugin/champsim_tracer.c:1445-1490 | after install the object represents the machine with one open, empty chunk |
| Capture.Vcpu.FinalizePendingInsn | tracer/rpoint-cs/plugin/champsim_tracer.c:472-530 | writes the pending record, once, and advances both counters; without a pending record nothing changes |
| Capture.Vcpu.WriteHeader | tracer/rpoint-cs/plugin/champsim_tracer.c:644-660 | a fresh chunk begins with exactly the 16-byte file header, written in four pieces |
| Capture.Vcpu.OpenChunk | tracer/rpoint-cs/plugin/champsim_tracer.c:596-663 | a new chunk holds only the header, its count is 0 and its start is the stream position when sampling, the captured count otherwise; on failure count and start are left alone |
| Capture.Vcpu.CloseChunk | tracer/rpoint-cs/plugin/champsim_tracer.c:665-694 | finalizes, ends the file and appends a manifest row exactly when chunking and the chunk holds something |
| Capture.Vcpu.Rotate | tracer/rpoint-cs/plugin/champsim_tracer.c:871-886 | the rotation boundary: a full chunk is closed and indexed and an empty one opened, or the vCPU stops |
| Capture.Vcpu.RecordInsn | tracer/rpoint-cs/plugin/champsim_tracer.c:864-896 | limit, rotation, then the instruction becomes the pending one |
| Capture.Vcpu.CountGap | tracer/rpoint-cs/plugin/champsim_tracer.c:755-800 | in a gap: compare before counting, wait for a qualifying instruction, then open the next window |
| Capture.Vcpu.EndWindow | tracer/rpoint-cs/plugin/champsim_tracer.c:816-862 | the callback after a window's last instruction closes the window and still accounts for the current instruction |
| Capture.Vcpu.InsnExec | tracer/rpoint-cs/plugin/champsim_tracer.c:700-896 | every instruction callback, in every state, is one step of the record-level machine |
| Capture.Vcpu.MemCb | tracer/rpoint-cs/plugin/champsim_tracer.c:898-962 | every memory callback is one step of the machine: only a pending instruction takes an operation, and only its first seven |
| Capture.Vcpu.AtExit | tracer/rpoint-cs/plugin/champsim_tracer.c:1203-1212 | at exit the manifest is the machine's and every chunk file, the open one included, is finished |
| Capture.CaptureRun | tracer/rpoint-cs/plugin/champsim_tracer.c:700-1212 | for every event sequence the files written are, byte for byte, the serialized chunks of the record-level machine, and the manifest is its manifest |
| TraceReader.Reader.Refill | tracer/rpoint-cs/converter/raw2champsim.c:189-229 | loops over empty decompressor outputs; afterwards a byte is buffered or the stream is exhausted, and no byte is lost |
| TraceReader.Reader.Read | tracer/rpoint-cs/converter/raw2champsim.c:231-251 | hands out the next bytes of the stream in order, fewer than asked only at its end, however it is sliced |
| TraceReader.Reader.ReadExact | tracer/rpoint-cs/converter/raw2champsim.c:253-256 | succeeds exactly when enough bytes are left, and then returns precisely those |
| TraceReader.Reader.ReadMemOp | tracer/rpoint-cs/converter/raw2champsim.c:620-662 | reads one memory operation, or stops as truncated or corrupt, exactly as the format says |
| TraceReader.Reader.ReadMemOps | tracer/rpoint-cs/converter/raw2champsim.c:617-666 | reads the counted operations one after another, with the bytes they came from |
| TraceReader.Reader.ReadFrame | tracer/rpoint-cs/converter/raw2champsim.c:560-666 | field-by-field reading through any slicing equals the functional parser on the remaining bytes, for every outcome |
| Convert.MapMemOps | tracer/rpoint-cs/converter/raw2champsim.c:736-778 | loads fill the four source slots and stores the two destination slots in order; the overflow count is exactly those that did not fit |
| Convert.BuildRecord | tracer/rpoint-cs/converter/raw2champsim.c:686-778 | the output record for one instruction: decoded registers, branch type, feature bits, tracer id and memory slots, before its direction is known |
| Convert.Settle | tracer/rpoint-cs/converter/raw2champsim.c:668-678 | the record held back gets exactly the direction the whole-trace definition gives it, now that its successor is read |
| Convert.FinalRecord | tracer/rpoint-cs/converter/raw2champsim.c:831-849 | the last record is written with its direction if that is known without a successor, and dropped if not |
| Convert.ConvertStream | tracer/rpoint-cs/converter/raw2champsim.c:560-849 | the one-record lookahead loop writes exactly the declaratively directed records, for every stop reason and every -n |
| Convert.ReadFileHeader | tracer/rpoint-cs/converter/raw2champsim.c:469-509 | accepts or refuses a file header field by field, in the order of the checks |
| Convert.ConvertFile | tracer/rpoint-cs/converter/raw2champsim.c:414-849 | the whole conversion equals the specification of the file's bytes, however the decompressor slices them |
| ConvertMeaning.SideSlots | tracer/rpoint-cs/converter/raw2champsim.c:736-778 | slot j of a side holds the j-th operation of that direction, with its value and zeros after it and no physical address if that is unknown or device memory; the slots left over are empty |
| ConvertMeaning.ConversionMeaning | tracer/rpoint-cs/converter/raw2champsim.c:560-849 | for every file, decoder and -n: one output record per raw record, in order, but for a last one without a direction or lost to an error; each has its own address, privilege, registers, type and memory operations; jumps, calls and returns are taken, CONDITIONAL and OTHER exactly if the next instruction is not the one right after it, and nothing else is |
| ConvertMeaning.FallThroughTakesNothing | tracer/rpoint-cs/converter/raw2champsim.c:668-678 | in code in which every instruction is followed by the next one no CONDITIONAL branch is taken |
| ConvertLaws.LimitLength | tracer/rpoint-cs/converter/raw2champsim.c:561-561 | -n k writes k records, or k - 1 exactly when record k is CONDITIONAL or OTHER |
| ConvertLaws.LimitIsPrefix | tracer/rpoint-cs/converter/raw2champsim.c:561-561 | the output of -n k is a prefix of the full output if and only if the run does not stop right before a record with a cut-off or corrupt memory operation while record k has a direction of its own; in that case it is the full output and one more record |
| ConvertLaws.LimitCanOutrunAnError | tracer/rpoint-cs/converter/raw2champsim.c:633-639 | a concrete file on which -n 1 writes one record and a full run writes none |
| ConvertLaws.ChunkedConversion | tracer/rpoint-cs/converter/raw2champsim.c:831-849 | converting chunk by chunk and concatenating gives the conversion of the whole capture minus exactly the records that are last in a chunk and CONDITIONAL or OTHER, for every way of chunking |
| Pipeline.CaptureReadsBack | tracer/rpoint-cs/converter/raw2champsim.c:469-666 | every chunk file of every capture is read back as exactly the records captured, header included, with no error path taken |
| Pipeline.WholePipeline | tracer/rpoint-cs/converter/raw2champsim.c:560-849 | capture, write, read and convert: an unlimited single-file capture becomes, for every event sequence, one record per instruction callback in order, each with the operations of its own memory callbacks and with its direction, both read off the callbacks and not off the programs |
| Pipeline.SampledPipeline | tracer/rpoint-cs/converter/raw2champsim.c:560-849 | trace j of a sampled capture is the conversion of window j of the executed stream |
| Pipeline.AccessReachesSlot | tracer/rpoint-cs/converter/raw2champsim.c:736-778 | a memory callback reaches the final trace with its own address and width, its physical address unless unknown or device memory, and its value zero-padded: the plugin's flag bits and the converter's reading of them agree |
| Pipeline.RotatedPipeline | tracer/rpoint-cs/converter/raw2champsim.c:831-849 | from callbacks to bytes to trace: a rotated capture converted file by file is the unrotated capture converted, minus exactly the undecidable chunk-final records |
| Pipeline.FilteredPipeline | tracer/rpoint-cs/plugin/trace_filter.c:612-824 | filtering a captured x86 chunk never crashes, and its output converts to the trace of exactly the kept records |
| IdleSpec.IdleSnoc | tracer/rpoint-cs/plugin/trace_filter.c:704-767 | one more record makes idle exactly the candidate run it ends, and nothing else: the one-pass state machine's justification against the whole-trace definition |
| IdleSpec.FilterIdempotent | tracer/rpoint-cs/plugin/trace_filter.c:704-824 | filtering a filtered trace removes nothing |
| IdleSpec.WakesKept | tracer/rpoint-cs/plugin/trace_filter.c:741-767 | of the user instructions other than HLT none is lost, and kept and removed records add up to all records |
| IdleSpec.PartsConserve | tracer/rpoint-cs/plugin/trace_filter.c:704-824 | any kind of record is counted once over what is kept and what is removed, at every prefix |
| IdleFilter.IdleBuffer.ReserveBytes | tracer/rpoint-cs/plugin/trace_filter.c:411-416 | growing the byte store by doubling makes room and keeps the buffered records |
| IdleFilter.IdleBuffer.ReserveSlot | tracer/rpoint-cs/plugin/trace_filter.c:417-422 | growing both slot arrays makes room for one record and keeps the buffered records |
| IdleFilter.IdleBuffer.Append | tracer/rpoint-cs/plugin/trace_filter.c:407-430 | whatever reallocation happens, the buffer gains exactly this record, and the kernel count its kind |
| IdleFilter.IdleBuffer.Reset | tracer/rpoint-cs/plugin/trace_filter.c:400-405 | the buffer is empty and its kernel count zero |
| IdleFilter.Flush | tracer/rpoint-cs/plugin/trace_filter.c:743-757 | replays the buffered records verbatim and in order, counting each as kernel |
| IdleFilter.ProcessActive | tracer/rpoint-cs/plugin/trace_filter.c:706-720 | a HLT starts a candidate run; anything else is written verbatim |
| IdleFilter.ProcessCandidate | tracer/rpoint-cs/plugin/trace_filter.c:721-780 | a HLT drops the run and starts another, a user record replays it and is written, a kernel record joins it |
| IdleFilter.Conclude | tracer/rpoint-cs/plugin/trace_filter.c:812-824 | an unterminated candidate run is kept at the end of the trace |
| IdleFilter.FilterStream | tracer/rpoint-cs/plugin/trace_filter.c:612-824 | the loop writes the header and exactly the records outside idle runs, verbatim and in order, with exact counters, for every stop reason |
| IdleFilter.FilterFile | tracer/rpoint-cs/plugin/trace_filter.c:499-824 | the whole program, header refusals and the AArch64 refusal included, however its input is sliced |
| IdleLaws.ExactBalance | tracer/rpoint-cs/plugin/trace_filter.c:697-758 | the reported counters are off by exactly the user-mode HLTs: in_user = out_user + those, in_kernel = out_kernel + discarded minus the replayed ones, in_total = out_total + discarded + the dropped ones |
| IdleLaws.BalanceConditions | tracer/rpoint-cs/plugin/trace_filter.c:697-758 | each of the three balances holds if and only if every HLT, every kept HLT, every dropped HLT is privileged |
| IdleLaws.UserHltsUnbalance | tracer/rpoint-cs/plugin/trace_filter.c:721-758 | a concrete file of two user-mode HLTs on which the filter's own counters fail all three balances |
| IdleLaws.BalanceWhenPrivileged | tracer/rpoint-cs/plugin/trace_filter.c:749-756 | when every HLT is privileged the user, kernel and total counters all balance |
| IdleLaws.ReadRecordLocal | tracer/rpoint-cs/plugin/trace_filter.c:598-602 | a record is read from its own bytes alone, and they fit the 601-byte scratch buffer, for any input file |
| IdleLaws.OutputReadsBack | tracer/rpoint-cs/plugin/trace_filter.c:612-824 | the filter's output has the input's header and reads back, without error, as the records kept |
| IdleLaws.FilterTwice | tracer/rpoint-cs/plugin/trace_filter.c:612-824 | filtering a filtered file reproduces it byte for byte and discards nothing |
| IdleLaws.KindsInBytes | tracer/rpoint-cs/plugin/trace_filter.c:710-711 | what the filter looks for, in the bytes of a record: bit 4 of the first byte clear is user mode, and a HLT is a one-byte instruction 0xF4 in any mode |
| IndirectTargets.TargetsSnoc | tools/trace_sanity_check/trace_sanity_check.cpp:493-501 | the next record resolves the pending indirect branch and no other, against the whole-trace definition of targets |
| IndirectTargets.NoTargetRanOnce | tools/trace_sanity_check/trace_sanity_check.cpp:598-601 | an indirect branch with no target is the last record of the trace and ran once |
| IndirectTargets.Attribute | tools/trace_sanity_check/trace_sanity_check.cpp:493-502 | one pass of resolve-then-arm keeps both maps equal to the whole-trace attribution, two indirect branches in a row included |
| IndirectTargets.FindBucket | tools/trace_sanity_check/trace_sanity_check.cpp:610-612 | every positive target count falls in a bucket, the first whose range holds it |
| IndirectTargets.ReportTargets | tools/trace_sanity_check/trace_sanity_check.cpp:582-613 | the report's totals, each bucket's static and dynamic share and the most polymorphic PC are those of the maps, in whatever order the PCs come |
| IndirectTargets.ReportAccountsForAll | tools/trace_sanity_check/trace_sanity_check.cpp:596-613 | bucket sums equal the totals, which are all PCs and all indirect records, short of one exactly when the trace ends in an indirect branch whose PC never ran before |
| CheckerLaws.BucketBounds | tools/trace_sanity_check/trace_sanity_check.cpp:582-592 | the buckets up to 64 targets end at the powers of two, then come those up to 256 and all the others; each positive count is in exactly one |
| CheckerLaws.TargetIs | tools/trace_sanity_check/trace_sanity_check.cpp:493-501 | the targets of a PC are exactly the addresses that come right after an indirect jump or call there |
| Checker.Stats.Observe | tools/trace_sanity_check/trace_sanity_check.cpp:475-518 | one record through the read loop keeps every counter, both histograms and the attribution equal to what they count |
| Checker.RunV2 | tools/trace_sanity_check/trace_sanity_check.cpp:457-536 | after the pass every counter is its count over the whole trace, and a trailing indirect branch is dangling, not lost |
| Checker.SumUnconditional | tools/trace_sanity_check/trace_sanity_check.cpp:861-867 | summing the bars of the unconditional classes counts the unconditional records, and the taken ones |
| Checker.CountDistinct | tools/trace_sanity_check/trace_sanity_check.cpp:844-847 | the number of branch types present |
| Checker.RunChecks | tools/trace_sanity_check/trace_sanity_check.cpp:818-893 | the number of failed checks is the number of the six conditions that do not hold of the trace, the percentage test included |
| CheckerLaws.Check1 | tools/trace_sanity_check/trace_sanity_check.cpp:836-840 | check 1 holds exactly if there are records and every one declares its branch type |
| CheckerLaws.Check2 | tools/trace_sanity_check/trace_sanity_check.cpp:842-849 | check 2 holds exactly if two records have different branch types of the eight |
| CheckerLaws.Check3 | tools/trace_sanity_check/trace_sanity_check.cpp:851-857 | check 3 holds exactly if some conditional branch is taken and some is not |
| CheckerLaws.Check4 | tools/trace_sanity_check/trace_sanity_check.cpp:859-869 | check 4 holds exactly if there is a jump, call or return and all of them are taken |
| CheckerLaws.Check5 | tools/trace_sanity_check/trace_sanity_check.cpp:871-874 | check 5 holds exactly if every call and return is flagged as a branch |
| CheckerLaws.Check6 | tools/trace_sanity_check/trace_sanity_check.cpp:876-881 | check 6 holds exactly if some record reads register 25 and some record writes it |
| CheckerLaws.NoFailures | tools/trace_sanity_check/trace_sanity_check.cpp:818-893 | no failure is counted exactly if all checks hold |
| Checker.ConverterPassesChecks | tools/trace_sanity_check/trace_sanity_check.cpp:836-874 | every trace the converter writes, whatever its input and however it stopped, declares the branch type on every record, has every unconditional class 100% taken and no unflagged call or return; check 4 fails only for want of an unconditional record |
| Cutter.CutUnique | tools/trace_cutter/trace_cutter.cpp:299-345 | there is one way to cut a stream into chunks of n records |
| Cutter.CutCount | tools/trace_cutter/trace_cutter.cpp:299-345 | it makes ceil(records / n) chunks |
| Cutter.Splitter.FinalizeCurrentChunk | tools/trace_cutter/trace_cutter.cpp:266-288 | closes the open file if there is one, and only then |
| Cutter.Splitter.EmitRecords | tools/trace_cutter/trace_cutter.cpp:301-316 | a run of whole records is written, split over as many chunks as it takes |
| Cutter.Splitter.DrainCarry | tools/trace_cutter/trace_cutter.cpp:322-333 | a partial record is completed from the next slice, or keeps growing |
| Cutter.Splitter.ConsumeDecompressed | tools/trace_cutter/trace_cutter.cpp:320-345 | after any slice, the stream so far is what was written plus the carry, which is shorter than a record |
| Cutter.Splitter.Finish | tools/trace_cutter/trace_cutter.cpp:361-361 | at the end the chunks are the cut of the whole records and the carry is length mod 512 |
| Cutter.CutTrace | tools/trace_cutter/trace_cutter.cpp:347-361 | for every slicing: the chunks concatenate to the longest prefix of whole records, all but the last are full, none is empty, and their number is the ceiling |
| Cutter.SlicingIrrelevant | tools/trace_cutter/trace_cutter.cpp:347-361 | two slicings of one stream give the same chunks |
| Offsets.ParseOffsets | tracer/pintool/pin/champsim_tracer_mt_roi_v3.cpp:484-513 | the parsing loop equals the specification of a comma-separated list: blanks trimmed, empty tokens skipped, a malformed or out-of-range token or an empty list refused |
| Offsets.ParseRoundTrip | tracer/pintool/pin/champsim_tracer_mt_roi_v3.cpp:484-513 | every non-empty list of 64-bit numbers survives being written and parsed; the empty one is refused |
| OffsetsText.TokenMeaning | tracer/pintool/pin/champsim_tracer_mt_roi_v3.cpp:491-505 | a token is skipped exactly if it is blank, and stands for a number exactly if it is that number's digits with blanks around them and nothing else |
| OffsetsText.ParsedMeaning | tracer/pintool/pin/champsim_tracer_mt_roi_v3.cpp:484-513 | the parser's answer for any text: the numbers its tokens spell, in order, if there is one |
| OffsetsText.RefusedExactly | tracer/pintool/pin/champsim_tracer_mt_roi_v3.cpp:497-506 | a text is refused if and only if all its tokens are blank or some token is bad: it holds a character that is neither digit nor blank, a blank inside its digits, or a number of 2^64 or more |
| OffsetsText.BadTokenRefused | tracer/pintool/pin/champsim_tracer_mt_roi_v3.cpp:497-506 | one bad token refuses the whole list, whatever comes before and after it |
| OffsetsText.BlanksIgnored | tracer/pintool/pin/champsim_tracer_mt_roi_v3.cpp:493-496 | blanks around a token never change the answer, wherever it stands |
| OffsetsText.BlankTokensIgnored | tracer/pintool/pin/champsim_tracer_mt_roi_v3.cpp:498-510 | nor do blank or empty tokens |
| OffsetsText.PlaceValue | tracer/pintool/pin/champsim_tracer_mt_roi_v3.cpp:500-504 | the value of a digit string: what is in front counts for ten to the number of digits behind it |
| Offsets.ValidateOffsets | tracer/pintool/pin/champsim_tracer_mt_roi_v3.cpp:517-545 | accepts exactly the lists that are skip-based only, strictly increasing and not overlapping |
| Offsets.AcceptedMeansDisjoint | tracer/pintool/pin/champsim_tracer_mt_roi_v3.cpp:517-545 | a list is accepted if and only if nothing else was asked for, its offsets increase, and no instruction is in two of its regions |
| Offsets.BudgetsTelescope | tracer/pintool/pin/champsim_tracer_mt_roi_v3.cpp:880-889 | with an accepted list the skips and windows before region i add up to offsets[i], and no skip is negative |
| Regions.RegionsOpenWhereAsked | tracer/pintool/pin/champsim_tracer_mt_roi_v3.cpp:853-905 | in every run, whatever the other threads do and however code is instrumented: the instructions a thread has executed are the nominal position its state stands for, plus what its skips ran past their budgets, plus what it executed uncounted; so record r of region i is its own instruction offsets[i] + r if and only if both of those are zero |
| Regions.SamplesOpenWhereAsked | tracer/pintool/pin/champsim_tracer_mt_roi_v3.cpp:853-905 | the same for runs with -i and -s: a thread in sample i has executed the initial skip, i samples and i inter-sample skips and what is in its open sample, plus what its skips overran, plus what went uncounted |
| Regions.RegionCanOpenLate | tracer/pintool/pin/champsim_tracer_mt_roi_v3.cpp:1834-1849 | a concrete run of two threads, all code fresh, in which one executes an instruction uncounted while the other traces, and its region opens one instruction late although the other is done by then |
| Regions.UncountedIsOverlap | tracer/pintool/pin/champsim_tracer_mt_roi_v3.cpp:1834-1879 | when code is compiled under the present count of tracing threads, a thread that is not done has executed uncounted exactly the instructions that overlap with another thread's tracing |
| Regions.TraceTidIsExact | tracer/pintool/pin/champsim_tracer_mt_roi_v3.cpp:1914-1918 | with -trace_tid and such code nothing goes uncounted: regions open at the offset asked for plus what the skips ran past their budgets |
| Regions.BlockEffect | tracer/pintool/pin/champsim_tracer_mt_roi_v3.cpp:1864-1878 | a basic block carries both fast-forward calls and is charged to one skip, once |
| Offsets.SkipEndsInItsBlock | tracer/pintool/pin/champsim_tracer_mt_roi_v3.cpp:1223-1253 | a skip of B instructions ends in the block where S < B <= S + n |
| PinSpec.NextGapPlain | tracer/pintool/pin/champsim_tracer_mt_roi_v3.cpp:880-889 | with an accepted list the 64-bit arithmetic of the next skip neither wraps nor underflows |
| PinSpec.FinishSampleOk | tracer/pintool/pin/champsim_tracer_mt_roi_v3.cpp:853-905 | finishing a full sample leads to a good state of DONE, INTER_SKIP or TRACING, never past the list |
| PinSpec.RecordedOk | tracer/pintool/pin/champsim_tracer_mt_roi_v3.cpp:1513-1543 | one record keeps counter plus open records equal to -t |
| PinRuns.StepKeeps | tracer/pintool/pin/champsim_tracer_mt_roi_v3.cpp:1042-2014 | every callback of every thread in any good state leads to a good state: samples, skips, region-of-interest and bookkeeping facts of all threads |
| PinRuns.RunKeeps | tracer/pintool/pin/champsim_tracer_mt_roi_v3.cpp:1042-2014 | so they hold after every interleaving PIN can produce |
| PinRuns.SamplesAreExact | tracer/pintool/pin/champsim_tracer_mt_roi_v3.cpp:853-905 | every completed sample holds exactly -t records, never more samples than the quota, counter plus open records equal -t, and no index past -offsets, in every reachable state |
| PinRuns.NothingBeforeRoi | tracer/pintool/pin/champsim_tracer_mt_roi_v3.cpp:1086-1095 | with markers on, before the region of interest every thread is WAITING or DONE, so sending the master to DONE without touching the counter is right |
| PinRuns.ExitStep | tracer/pintool/pin/champsim_tracer_mt_roi_v3.cpp:730-770 | the exit flag is set exactly by a step that makes a thread done while as many have finished as have started |
| PinRuns.ExitMeansAllDone | tracer/pintool/pin/champsim_tracer_mt_roi_v3.cpp:730-770 | skip-based runs: the exit flag is set exactly by the step that makes the threads that reached DONE the same set as the threads that ever traced |
| PinRuns.AllDoneNext | tracer/pintool/pin/champsim_tracer_mt_roi_v3.cpp:1223-1237 | once those sets are equal, the next callback keeps them equal if and only if it is neither the end of a live thread's initial skip nor the start of an admitted thread with nothing to skip |
| PinRuns.AfterExit | tracer/pintool/pin/champsim_tracer_mt_roi_v3.cpp:747-770 | so after the exit flag was set, over any continuation, the sets stay equal throughout if and only if no callback of it is of those two kinds |
| PinRuns.ExitCanBeOutrun | tracer/pintool/pin/champsim_tracer_mt_roi_v3.cpp:747-770 | a concrete run in which, one step later, a thread still skipping has started tracing: the equality is of the step, not of ever after |
| PinLaws.ThreadsFollowTheRules | tracer/pintool/pin/champsim_tracer_mt_roi_v3.cpp:1042-1253 | every callback in every run, with markers or without: which ones begin tracing, pause a thread between samples, make it done, register it or make it the master, each if and only if the stated condition holds; tracing starts with the full count and an inter-sample skip with the whole skip |
| PinLaws.BooksFollowTheRules | tracer/pintool/pin/champsim_tracer_mt_roi_v3.cpp:730-745 | a thread enters the started set exactly when it begins tracing and the done set exactly when it is done, and no callback of another thread changes that |
| PinLaws.NewThreadFollows | tracer/pintool/pin/champsim_tracer_mt_roi_v3.cpp:1928-1960 | a new thread waits for the region of interest or traces at once if that has begun; without markers it has its first skip ahead, or traces at once if that is zero |
| PinLaws.WhoIsRegistered | tracer/pintool/pin/champsim_tracer_mt_roi_v3.cpp:1904-1916 | in every run the registered threads are the live ones the knobs let in: with -main_only the thread that started first, even if that has exited, with -trace_tid that id |
| PinLaws.OnlyTheEntitledTrace | tracer/pintool/pin/champsim_tracer_mt_roi_v3.cpp:1186-1193 | with -trace_only_registered_workers a thread that traces has registered, is the master, or started after the region of interest began |
| PinLaws.LateThreadTraces | tracer/pintool/pin/champsim_tracer_mt_roi_v3.cpp:1928-1935 | every thread that is let in and starts after the region of interest began traces at once without having registered |
| PinLaws.UnregisteredCanTrace | tracer/pintool/pin/champsim_tracer_mt_roi_v3.cpp:1928-1935 | a concrete run of three callbacks in which a thread that never registered traces although only registered workers may |
| PinTracer.ThreadState.FinishSample | tracer/pintool/pin/champsim_tracer_mt_roi_v3.cpp:853-905 | the object's counters and phase after a finished sample, with the quota, the offset list and the fixed skip |
| PinTracer.Tracer.MarkStartedTracing | tracer/pintool/pin/champsim_tracer_mt_roi_v3.cpp:730-736 | the one-shot flag makes the atomic counter the cardinality of the set of threads that ever traced |
| PinTracer.Tracer.MarkReachedDone | tracer/pintool/pin/champsim_tracer_mt_roi_v3.cpp:738-745 | likewise for the threads that reached DONE, and the exit test follows |
| PinTracer.Tracer.EnterTracing | tracer/pintool/pin/champsim_tracer_mt_roi_v3.cpp:1042-1048 | the count of tracing threads goes up by one because the thread was not tracing |
| PinTracer.Tracer.LeaveTracing | tracer/pintool/pin/champsim_tracer_mt_roi_v3.cpp:1050-1058 | the count goes down exactly when the next sample does not open at once |
| PinTracer.Tracer.RecordInstr | tracer/pintool/pin/champsim_tracer_mt_roi_v3.cpp:1513-1543 | one record, and the end of the sample if it was the last |
| PinTracer.Tracer.RoiBegin | tracer/pintool/pin/champsim_tracer_mt_roi_v3.cpp:1064-1110 | the first BEGIN makes its thread the master, traced or orchestrating, and later ones do nothing |
| PinTracer.Tracer.Orchestrate | tracer/pintool/pin/champsim_tracer_mt_roi_v3.cpp:1086-1095 | DONE without a correction of the count, which stays right because the thread is not tracing |
| PinTracer.Tracer.RegisterWorker | tracer/pintool/pin/champsim_tracer_mt_roi_v3.cpp:1112-1125 | registration changes nothing else |
| PinTracer.Tracer.RoiEnd | tracer/pintool/pin/champsim_tracer_mt_roi_v3.cpp:1127-1155 | the first END stops its own thread and corrects the count if it was tracing |
| PinTracer.Tracer.CheckRoiTransition | tracer/pintool/pin/champsim_tracer_mt_roi_v3.cpp:1161-1217 | a waiting thread enters, a thread after the end stops, an unregistered one is ignored when asked |
| PinTracer.Tracer.SkipBlock | tracer/pintool/pin/champsim_tracer_mt_roi_v3.cpp:1223-1253 | a skipped block uses up budget, or starts the sample |
| PinTracer.Tracer.ThreadStart | tracer/pintool/pin/champsim_tracer_mt_roi_v3.cpp:1904-1993 | a new thread is excluded, or registered in its starting phase and counted if it traces from the start |
| PinTracer.Tracer.ThreadFini | tracer/pintool/pin/champsim_tracer_mt_roi_v3.cpp:1995-2014 | a thread that exits mid-trace leaves the count |
| PinTracer.Tracer.Handle | tracer/pintool/pin/champsim_tracer_mt_roi_v3.cpp:1042-2014 | any callback, from any thread registered or not, is one step of the machine and keeps every counter equal to what it stands for |
| PinTracer.Replay | tracer/pintool/pin/champsim_tracer_mt_roi_v3.cpp:1042-2014 | after every interleaving active_tracing_threads is the number of registered threads in TRACING, and the two one-shot counters are the sizes of their sets |
| TraceCache.StepKeeps | scripts/fetch_trace.py:110-161 | every step, failure and kill of every process keeps the lock, tempfile and entry facts of all |
| TraceCache.RunKeeps | scripts/fetch_trace.py:110-161 | so they hold in every run |
| TraceCache.NeverTorn | scripts/fetch_trace.py:110-161 | the published entry is absent, what was there at first, or a complete copy of the source, never a torn one; at most one process is between the lock and its return |
| TraceCache.ReturnsOnlyAMatch | scripts/fetch_trace.py:116-123 | a call returns only at a moment when the entry exists and has the checksum it asked for |
| TraceCache.PublishedOnce | scripts/fetch_trace.py:80-161 | if every checksum given is the source's, an initially absent entry is published at most once and then stays |
| TraceCache.WrongChecksumRemoves | scripts/fetch_trace.py:120-126 | that condition is needed: from any such state, a caller with another checksum removes the good entry |
| TraceCache.GivenPathCanVanish | scripts/fetch_trace.py:116-126 | a concrete run in which a caller was given the path of a good copy that another caller then removes |
| FetchProgress.RunTidy | scripts/fetch_trace.py:134-158 | in every run a call that has returned or raised leaves no tempfile; only a killed one does |
| FetchProgress.FetchEnds | scripts/fetch_trace.py:110-161 | progress: from any state of any run with the lock free, a waiting call left alone ends within ten steps more than the source has bytes; it returns a good entry as it is, or else makes the source the entry, published once, if it has the checksum asked for, or else raises and leaves no entry; nothing else is touched |
| SubmitReport.SubmitAll | scripts/create_jobfile.py:290-310 | one row per unit in order, and a failure for exactly the refused ones |
| SubmitReport.AutoLaunch | scripts/create_jobfile.py:509-529 | smoke gate, submission, report; exit code 0 exactly for status ok |
| SubmitReport.DeletesExactly | scripts/cluster_run.py:770-780 | the claim is deleted exactly after an error reported before the smoke test, after a failed smoke test, or when some sbatch failed and none printed an id |
| SubmitReport.DeletesQueuedJobs | scripts/cluster_run.py:770-780 | a claim with queued jobs is deleted if and only if some sbatch failed and no accepted one printed an id |
| SubmitReport.RecordedJobs | scripts/cluster_run.py:782-783 | the recorded jobs are exactly the accepted ones that printed an id |
| SubmitListing.JobsListed | scripts/cluster_run.py:782-783 | the recorded jobs are one row for each accepted job that printed an id, with its own tag, in the order of the units |
| SubmitListing.FailuresListed | scripts/create_jobfile.py:303-309 | the failures are one entry for each refusal, in order, with its own tag and exit code and at most the last 500 characters it printed |
| SubmitListing.ReportAgrees | scripts/create_jobfile.py:290-310 | the two lists of a report agree: the rows with a non-zero exit code are, in order, the failures, and every unit has its own row |
| SubmitRuns.ClaimOrRefuse | scripts/cluster_run.py:287-299 | a batch id that is taken refuses the submit, with every ledger, run dir and launch as it was and the checkout's lock free; a free one becomes its own, and no other live submit of the checkout is at work under the lock |
| SubmitRuns.StepKeeps | scripts/cluster_run.py:273-299 | every step of every local process and remote launch, and every crash, keeps the lock, ledger and run-dir facts of all |
| SubmitRuns.RunKeeps | scripts/cluster_run.py:273-299 | so they hold in every run |
| SubmitRuns.QueuedHasLedger | scripts/cluster_run.py:757-797 | in every run, whatever crashed, a batch with a queued job has its own ledger file, readable except exactly between save_ledger's truncation and its write |
| SubmitRuns.DeletedOnlyIfNothingQueued | scripts/cluster_run.py:644-660 | a step that removes a ledger is one after which that submit has nothing queued |
| SubmitRuns.DeletedNeverQueues | scripts/cluster_run.py:644-660 | nor has it anything queued in any continuation |
| SubmitRuns.BatchIdsAreUnique | scripts/cluster_run.py:287-299 | no two submits proceed with one batch id, from one checkout (exclusive ledger) or several (plain mkdir, lines 610-616); no two hold one ledger; at most one live submit of a checkout is under its lock |
| SubmitRuns.RecordedListsEveryJob | scripts/cluster_run.py:302-309 | a ledger that is accepted lists exactly its batch's queued jobs, and no more will come |
| SubmitRuns.CrashTearsTheLedger | scripts/cluster_run.py:250-253 | a crash between truncation and write leaves a ledger that is neither placeholder nor record, with whatever was queued still queued |
| SubmitRuns.QueuedJobCanLoseItsRecord | scripts/cluster_run.py:250-253 | a concrete run, from one submit of one job, that ends with the job queued and its ledger blank |
| SubmitProgress.SubmitEnds | scripts/cluster_run.py:740-797 | progress: from any state of any run, a waiting submit of a new batch id from an unlocked checkout, undisturbed, ends with the lock free; the ledger lists the accepted jobs, partial exactly if something was refused, if the smoke test passed and sbatch refused nothing or printed some id; otherwise no ledger remains; no other submit is touched |
| SampleGap.UserGapSpansTheRun | tracer/rpoint-cs/scripts/common/sgap.py:55-55 | with the user clock the computed gap makes windows and gaps span the profiled run exactly |
| SampleGap.AllGapSpansTheRun | tracer/rpoint-cs/scripts/common/sgap.py:57-57 | likewise with the all-instruction clock |
| SampleGap.HintFallsShort | tracer/rpoint-cs/plugin/champsim_tracer.c:1184-1186 | the plugin's printed hint falls short of the run by K*N*(1-f)/f, which is nothing exactly when every instruction is a user one or the windows are empty |
| SampleGap.HintCanFallShort | tracer/rpoint-cs/plugin/champsim_tracer.c:1184-1186 | two windows of 10 in a run of 100, half of it user instructions: the hint's windows span 80 |
| SampleGap.AllClockSpan | tracer/rpoint-cs/plugin/champsim_tracer.c:770-801 | in the sampling machine, K windows under clock=all end at K*N + (K-1)*G |
| SampleGap.AllClockCoversTheRun | tracer/rpoint-cs/scripts/common/sgap.py:57-57 | a gap equal to sgap's makes the machine's last window end exactly at the end of the run |
| SampleGap.GapsOfTheMachine | tracer/rpoint-cs/plugin/champsim_tracer.c:770-789 | the gaps of the sampling machine before window k hold (k-1) * sample_gap clock ticks in all, for every k, and windows and gaps add up to where the last window ends |
| SampleGap.UserClockCoversTheRun | tracer/rpoint-cs/scripts/common/sgap.py:55-55 | with the user clock and sgap's gap, for the user instructions actually in the stream, the machine's K windows end at the end of the run if and only if the gaps, taken together, are as rich in user instructions as the run |
| SampleGap.UserClockCanFallShort | tracer/rpoint-cs/scripts/common/sgap.py:55-55 | a concrete execution of four instructions on which they end one instruction before it |

## Left out

- zstd framing, decompression errors, file handles and failing writes: streams are byte sequences in arbitrary slices.
- The Zydis and Capstone decoders with their opcode and register tables: an arbitrary function stands for them.
- The plugin's trigger file, profile mode and vCPU selection, which only decide whether the callbacks run at all; a
  failed open at install time; argument parsing.
- The compressed-size column of the manifest and the plugin's statistics other than the instruction counts.
- 64-bit wrap-around of instruction counters and of `-n`.
- The converter's statistics other than the number of records, and its progress output.
- The filter's `--stats-only` mode, its idle-length histogram and median, and its progress output.
- The checker's v1 and cloudsuite formats, its remaining counters (memory sizes, unique addresses), its CSV and the
  printed averages, medians and percentages of the report.
- The cutter's dry run, compressed sizes and progress output.
- `trace_inspector.c`, a third copy of the same parser with counters on top; the PIN v2 tracer, which is v3 without
  its knobs.
- PIN sample files that cannot be opened, recording of registers, memory operands and store values, and the choice
  of which callbacks to instrument: any callback may fire at any time.
- Interleavings inside one PIN callback.
- PinRuns.ExitMeansAllDone: stated for skip-based runs only, because with markers threads that never traced are also
  counted as done.
- PinTracer.Tracer.LeaveTracing: the order of the two atomic updates inside the callback is not modelled, because a
  callback is one step.
- What sbatch prints is taken without the whitespace at its ends, which the program strips first.
- SHA-256 itself and its letter case: an arbitrary digest function; an S3 download is a copy in chunks like any other.
- The submit's staging, sync, build and snapshot: one step that may fail; ssh and rsync details; rewriting of paths in
  experiment files; deletion of a placeholder by hand.
- TraceCache.PublishedOnce: assumes every checksum given is the source's; `TraceCache.WrongChecksumRemoves` shows why.
- SubmitRuns.QueuedHasLedger: assumes that an accepted sbatch prints a job id; `SubmitReport.DeletesQueuedJobs` says
  exactly what happens when it does not.
- Rounding in sgap, which is stated over the reals.
- Roll-up, comparison and regression scripts, job-file expansion, YAML merging, report printing and the benchmark
  drivers: easy members or input and output.
