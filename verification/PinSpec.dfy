/** The PIN tracer's per-thread phase machine as a transition system over atomic callbacks, and what every
    interleaving of them keeps. Counters are absent here: the class in PinTracer.dfy keeps them and is
    proved to agree with this machine. */
module PinSpec {
  import opened Bytes

  // ---- knobs ----

  datatype Knobs = Knobs(
    useMarkers: bool, initialSkip: U64, interSkip: U64, traceCount: U64, numSamples: U64,
    exitOnDone: bool, skipMaster: bool, onlyRegistered: bool, mainThreadOnly: bool, traceTid: int,
    offsets: seq<U64>)

  /** validate_offsets: skip-based only, alone, strictly increasing, regions not overlapping. */
  predicate OffsetsAccepted(k: Knobs)
  {
    && !k.useMarkers && k.initialSkip == 0 && k.interSkip == 0
    && forall i :: 0 < i < |k.offsets| ==>
         k.offsets[i - 1] < k.offsets[i] && k.offsets[i] - k.offsets[i - 1] >= k.traceCount
  }

  /** What main starts with: -t at least 1, and an -offsets list only if it was accepted. */
  predicate Startable(k: Knobs)
  {
    k.traceCount >= 1 && (k.offsets != [] ==> OffsetsAccepted(k))
  }

  // ---- state ----

  /** OutOfRange is not a phase of the program: it stands for indexing past the -offsets list, and the
      invariant shows no thread ever gets there. */
  datatype Phase = WaitingForRoi | InitialSkip | Tracing | InterSkip | Done | OutOfRange

  /** `current` is the number of records in the open sample file, `completed` those of the finished ones. */
  datatype Thread = Thread(uid: nat, phase: Phase, counter: U64, samples: nat, limit: nat,
                           master: bool, registered: bool, current: nat, completed: seq<nat>)

  /** started and done are the threads (by creation number) that ever entered TRACING or reached DONE. */
  datatype World = World(threads: map<nat, Thread>, next: nat, main: Option<nat>,
                         roiStarted: bool, roiEnded: bool, started: set<nat>, done: set<nat>, exiting: bool)

  const INITIAL: World := World(map[], 0, None, false, false, {}, {}, false)

  datatype Callback =
    | ThreadStart(tid: nat)
    | ThreadFini(tid: nat)
    | RoiBegin(tid: nat)
    | RegisterWorker(tid: nat)
    | RoiEnd(tid: nat)
    | CheckRoi(tid: nat)
    | FastForwardInitial(tid: nat, icount: nat)
    | FastForwardInter(tid: nat, icount: nat)
    | Commit(tid: nat)

  // ---- steps ----

  function Put(w: World, tid: nat, t: Thread): World
  {
    w.(threads := w.threads[tid := t])
  }

  function MarkStarted(w: World, uid: nat): World
  {
    w.(started := w.started + {uid})
  }

  /** The first time a thread is done; the last such thread triggers the exit. */
  function MarkDone(k: Knobs, w: World, uid: nat): World
  {
    if uid in w.done then w else
    var done := w.done + {uid};
    w.(done := done, exiting := w.exiting || (k.exitOnDone && 0 < |w.started| <= |done|))
  }

  /** UINT64 subtraction. */
  function Sub64(a: nat, b: nat): (d: U64)
  {
    (a - b) % U64_SPAN
  }

  function StartSample(k: Knobs, t: Thread): Thread
  {
    t.(phase := Tracing, counter := k.traceCount, current := 0)
  }

  /** The sample just closed; what comes next. */
  function FinishSample(k: Knobs, t: Thread): Thread
  {
    var closed := t.(samples := t.samples + 1, completed := t.completed + [t.current]);
    var next := closed.samples;
    if t.limit > 0 && next >= t.limit then closed.(phase := Done)
    else if k.offsets != [] then
      if next >= |k.offsets| then closed.(phase := OutOfRange) else
      var prevEnd := (k.offsets[next - 1] + k.traceCount) % U64_SPAN;
      var gap := Sub64(k.offsets[next], prevEnd);
      if gap > 0 then closed.(phase := InterSkip, counter := gap) else StartSample(k, closed)
    else if k.interSkip > 0 then closed.(phase := InterSkip, counter := k.interSkip)
    else StartSample(k, closed)
  }

  function Quota(k: Knobs): nat
  {
    if !k.useMarkers && k.offsets != [] then |k.offsets| else k.numSamples
  }

  /** The initial skip of a skip-based run. */
  function FirstBudget(k: Knobs): U64
  {
    if k.offsets != [] then k.offsets[0] else k.initialSkip
  }

  function NewThread(k: Knobs, w: World): Thread
  {
    var t := Thread(w.next, WaitingForRoi, 0, 0, Quota(k), false, false, 0, []);
    if k.useMarkers then (if w.roiStarted then StartSample(k, t) else t)
    else if FirstBudget(k) > 0 then t.(phase := InitialSkip, counter := FirstBudget(k))
    else StartSample(k, t)
  }

  /** -main_thread_only and -trace_tid. */
  predicate Excluded(k: Knobs, main: Option<nat>, tid: nat)
  {
    (k.mainThreadOnly && Some(tid) != main) || (k.traceTid >= 0 && tid != k.traceTid)
  }

  function RememberMain(w: World, tid: nat): World
  {
    if w.main == None then w.(main := Some(tid)) else w
  }

  function Enlist(k: Knobs, w: World, tid: nat): World
  {
    var t := NewThread(k, w);
    var w := Put(w, tid, t).(next := w.next + 1);
    if t.phase == Tracing then MarkStarted(w, t.uid) else w
  }

  function Start(k: Knobs, w: World, tid: nat): World
  {
    var w := RememberMain(w, tid);
    if Excluded(k, w.main, tid) then w else Enlist(k, w, tid)
  }

  function EnterTracing(k: Knobs, w: World, tid: nat, t: Thread): World
  {
    MarkStarted(Put(w, tid, StartSample(k, t)), t.uid)
  }

  function Finish(k: Knobs, w: World, tid: nat, t: Thread): World
  {
    MarkDone(k, Put(w, tid, t.(phase := Done)), t.uid)
  }

  function Begin(k: Knobs, w: World, tid: nat): World
  {
    if w.roiStarted then w else
    var w := w.(roiStarted := true);
    if tid !in w.threads then w else
    var t := w.threads[tid].(master := true);
    if k.skipMaster then Finish(k, w, tid, t)
    else if t.phase == WaitingForRoi || t.phase == InitialSkip then EnterTracing(k, w, tid, t)
    else Put(w, tid, t)
  }

  function End(k: Knobs, w: World, tid: nat): World
  {
    if w.roiEnded then w else
    var w := w.(roiEnded := true);
    if tid !in w.threads then w else Finish(k, w, tid, w.threads[tid])
  }

  function Check(k: Knobs, w: World, tid: nat): World
  {
    if tid !in w.threads || w.threads[tid].phase == Done then w else
    var t := w.threads[tid];
    if w.roiEnded then Finish(k, w, tid, t)
    else if w.roiStarted && t.phase == WaitingForRoi && (k.onlyRegistered ==> t.registered)
    then EnterTracing(k, w, tid, t)
    else w
  }

  function FastForward(k: Knobs, w: World, tid: nat, phase: Phase, icount: nat): World
  {
    if tid !in w.threads || w.threads[tid].phase != phase then w else
    var t := w.threads[tid];
    if t.counter > icount then Put(w, tid, t.(counter := t.counter - icount))
    else EnterTracing(k, w, tid, t)
  }

  /** One record into the open sample. */
  function Recorded(k: Knobs, t: Thread): Thread
  {
    var t := t.(current := t.current + 1, counter := Sub64(t.counter, 1));
    if t.counter == 0 then FinishSample(k, t) else t
  }

  function CommitRecord(k: Knobs, w: World, tid: nat): World
  {
    if tid !in w.threads || w.threads[tid].phase != Tracing then w else
    var t := Recorded(k, w.threads[tid]);
    if t.phase == Done then MarkDone(k, Put(w, tid, t), t.uid) else Put(w, tid, t)
  }

  /** Marker instructions are instrumented only with -use_markers. */
  function Step(k: Knobs, w: World, c: Callback): World
  {
    match c
    case ThreadStart(tid) => Start(k, w, tid)
    case ThreadFini(tid) => w.(threads := w.threads - {tid})
    case RoiBegin(tid) => if k.useMarkers then Begin(k, w, tid) else w
    case RegisterWorker(tid) =>
      if k.useMarkers && tid in w.threads then Put(w, tid, w.threads[tid].(registered := true)) else w
    case RoiEnd(tid) => if k.useMarkers then End(k, w, tid) else w
    case CheckRoi(tid) => Check(k, w, tid)
    case FastForwardInitial(tid, n) => FastForward(k, w, tid, InitialSkip, n)
    case FastForwardInter(tid, n) => FastForward(k, w, tid, InterSkip, n)
    case Commit(tid) => CommitRecord(k, w, tid)
  }

  function Run(k: Knobs, cs: seq<Callback>): World
  {
    if cs == [] then INITIAL else Step(k, Run(k, cs[..|cs| - 1]), cs[|cs| - 1])
  }

  /** The thread ids in use. */
  function Live(cs: seq<Callback>): set<nat>
  {
    if cs == [] then {} else
    match cs[|cs| - 1]
    case ThreadStart(tid) => Live(cs[..|cs| - 1]) + {tid}
    case ThreadFini(tid) => Live(cs[..|cs| - 1]) - {tid}
    case _ => Live(cs[..|cs| - 1])
  }

  /** PIN never starts a thread under an id that is still in use. */
  predicate PinOrder(cs: seq<Callback>)
  {
    if cs == [] then true else
    var before, c := cs[..|cs| - 1], cs[|cs| - 1];
    PinOrder(before) && (c.ThreadStart? ==> c.tid !in Live(before))
  }

  // ---- invariants of one thread ----

  /** The distance from the end of one region to the start of the next. */
  function Gap(k: Knobs, i: nat): int
    requires 0 < i < |k.offsets|
  {
    k.offsets[i] - k.offsets[i - 1] - k.traceCount
  }

  /** Samples: every completed one holds exactly -t records, never more of them than the quota, and the
      open one has exactly the records its counter says are still missing. */
  ghost predicate SamplesOk(k: Knobs, t: Thread)
  {
    && t.samples == |t.completed| && (forall c :: c in t.completed ==> c == k.traceCount)
    && t.limit == Quota(k)
    && (t.limit > 0 ==> t.samples <= t.limit)
    && (t.limit > 0 && t.phase != Done ==> t.samples < t.limit)
    && (t.phase == Tracing ==> t.counter >= 1 && t.counter + t.current == k.traceCount)
    && (t.phase == WaitingForRoi || t.phase == InitialSkip ==> t.samples == 0)
  }

  /** Skips: the remaining budget never exceeds the distance to the region being sought, and no thread
      has run off the list. */
  ghost predicate SkipsOk(k: Knobs, t: Thread)
  {
    && t.phase != OutOfRange
    && (t.phase == InitialSkip ==> !k.useMarkers && 1 <= t.counter <= FirstBudget(k))
    && (t.phase == InterSkip ==> t.counter >= 1 && t.samples >= 1)
    && (t.phase == InterSkip && k.offsets != [] ==>
          t.samples < |k.offsets| && t.counter <= Gap(k, t.samples))
  }

  /** With markers on and the region of interest not begun, every thread waits or is done. */
  ghost predicate RoiOk(k: Knobs, roiStarted: bool, t: Thread)
  {
    && (k.useMarkers && !roiStarted ==> t.phase == WaitingForRoi || t.phase == Done)
    && (!k.useMarkers ==> t.phase != WaitingForRoi)
  }

  ghost predicate ThreadOk(k: Knobs, roiStarted: bool, t: Thread)
  {
    SamplesOk(k, t) && SkipsOk(k, t) && RoiOk(k, roiStarted, t)
  }

  lemma {:induction false} Sub64Plain(a: nat, b: nat)
    requires b <= a < U64_SPAN
    ensures Sub64(a, b) == a - b
  {
  }

  /** With an accepted list the unsigned arithmetic of the next skip neither wraps nor underflows. */
  lemma NextGapPlain(k: Knobs, i: nat)
    requires OffsetsAccepted(k) && 0 < i < |k.offsets|
    ensures (k.offsets[i - 1] + k.traceCount) % U64_SPAN == k.offsets[i - 1] + k.traceCount
    ensures Sub64(k.offsets[i], k.offsets[i - 1] + k.traceCount) == Gap(k, i) >= 0
  {
  }

  lemma FinishSampleOk(k: Knobs, roiStarted: bool, t: Thread)
    requires Startable(k) && SamplesOk(k, t.(phase := InterSkip)) && t.current == k.traceCount
    requires !k.useMarkers || roiStarted
    ensures ThreadOk(k, roiStarted, FinishSample(k, t))
    ensures FinishSample(k, t).phase in {Done, InterSkip, Tracing}
  {
    var next := t.samples + 1;
    if k.offsets != [] && next < |k.offsets| {
      NextGapPlain(k, next);
    }
  }

  lemma RecordedOk(k: Knobs, roiStarted: bool, t: Thread)
    requires Startable(k) && ThreadOk(k, roiStarted, t) && t.phase == Tracing
    ensures ThreadOk(k, roiStarted, Recorded(k, t))
    ensures Recorded(k, t).phase in {Done, InterSkip, Tracing}
  {
    Sub64Plain(t.counter, 1);
    if t.counter == 1 {
      FinishSampleOk(k, roiStarted, t.(current := t.current + 1, counter := 0));
    }
  }

  lemma NewThreadOk(k: Knobs, w: World)
    requires Startable(k)
    ensures ThreadOk(k, w.roiStarted, NewThread(k, w))
    ensures k.useMarkers || NewThread(k, w).phase in {InitialSkip, Tracing}
  {
  }
}
