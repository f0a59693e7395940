/** What the PIN tracer's callbacks do to a thread, callback by callback and over whole runs: which threads are
    registered, when one begins tracing, skips between samples and is done. */
module PinLaws {
  import opened Bytes
  import opened PinRuns
  import opened PinSpec
  import Regions

  // ---- one callback, one thread ----

  /** The callbacks that put a live thread into TRACING. */
  predicate Begins(k: Knobs, w: World, c: Callback, tid: nat)
    requires tid in w.threads
  {
    var t := w.threads[tid];
    || (c == RoiBegin(tid) && k.useMarkers && !w.roiStarted && !k.skipMaster && t.phase in {WaitingForRoi, InitialSkip})
    || (c == CheckRoi(tid) && w.roiStarted && !w.roiEnded && t.phase == WaitingForRoi
        && (k.onlyRegistered ==> t.registered))
    || (c.FastForwardInitial? && c.tid == tid && t.phase == InitialSkip && t.counter <= c.icount)
    || (c.FastForwardInter? && c.tid == tid && t.phase == InterSkip && t.counter <= c.icount)
  }

  /** Those that make a thread done: the first END, a check after it, the first BEGIN if the master only
      orchestrates, and the record that fills the last sample of the quota. */
  predicate Finishes(k: Knobs, w: World, c: Callback, tid: nat)
    requires tid in w.threads
  {
    var t := w.threads[tid];
    || (c == RoiBegin(tid) && k.useMarkers && !w.roiStarted && k.skipMaster)
    || (c == RoiEnd(tid) && k.useMarkers && !w.roiEnded)
    || (c == CheckRoi(tid) && w.roiEnded && t.phase != Done)
    || (c == Commit(tid) && t.phase == Tracing && t.counter == 1 && t.limit > 0 && t.samples + 1 >= t.limit)
  }

  /** The record that fills a sample, and another is to follow after a skip. */
  predicate Pauses(k: Knobs, w: World, c: Callback, tid: nat)
    requires tid in w.threads
  {
    var t := w.threads[tid];
    && c == Commit(tid) && t.phase == Tracing && t.counter == 1 && (t.limit > 0 ==> t.samples + 1 < t.limit)
    && if k.offsets == [] then k.interSkip > 0
       else 0 < t.samples + 1 < |k.offsets| && k.offsets[t.samples + 1] != k.offsets[t.samples] + k.traceCount
  }

  /** What follows a full sample: nothing more, a skip of the right length, or the next sample at once. */
  lemma FullSample(k: Knobs, t: Thread)
    requires Startable(k) && (k.offsets != [] ==> t.limit == |k.offsets|)
    ensures var t', next := FinishSample(k, t), t.samples + 1;
            if t.limit > 0 && next >= t.limit then t'.phase == Done
            else if k.offsets != [] && Gap(k, next) > 0 then t'.phase == InterSkip && t'.counter == Gap(k, next)
            else if k.offsets == [] && k.interSkip > 0 then t'.phase == InterSkip && t'.counter == k.interSkip
            else t'.phase == Tracing && t'.counter == k.traceCount && t'.current == 0
  {
    if k.offsets != [] && t.samples + 1 < |k.offsets| {
      NextGapPlain(k, t.samples + 1);
    }
  }

  /** A record that does not fill its sample. */
  lemma OpenSample(k: Knobs, t: Thread)
    requires t.counter > 1
    ensures Recorded(k, t) == t.(current := t.current + 1, counter := t.counter - 1)
  {
    Sub64Plain(t.counter, 1);
  }

  lemma LastRecord(k: Knobs, t: Thread)
    requires t.counter == 1
    ensures Recorded(k, t) == FinishSample(k, t.(current := t.current + 1, counter := 0))
  {
    Sub64Plain(t.counter, 1);
  }

  lemma CommitPhase(k: Knobs, w: World, tid: nat)
    requires Startable(k) && tid in w.threads && ThreadOk(k, w.roiStarted, w.threads[tid])
    requires w.threads[tid].phase == Tracing
    ensures var t, t' := w.threads[tid], Recorded(k, w.threads[tid]);
            && (t'.phase == Done <==> Finishes(k, w, Commit(tid), tid))
            && (t'.phase == InterSkip <==> Pauses(k, w, Commit(tid), tid))
            && (t'.phase == InterSkip && k.offsets == [] ==> t'.counter == k.interSkip)
            && (t'.phase in {Tracing, InterSkip, Done})
  {
    var t := w.threads[tid];
    if t.counter == 1 {
      LastRecord(k, t);
      FullSample(k, t.(current := t.current + 1, counter := 0));
    } else {
      OpenSample(k, t);
    }
  }

  /** Begin and end of tracing, for any callback and any live thread. */
  ghost predicate PhaseRule(k: Knobs, w: World, c: Callback, tid: nat, t': Thread)
    requires tid in w.threads
  {
    var t := w.threads[tid];
    && (t.phase != Tracing ==> (t'.phase == Tracing <==> Begins(k, w, c, tid)))
    && (t.phase != Tracing && t'.phase == Tracing ==> t'.counter == k.traceCount && t'.current == 0)
    && (t.phase != Done ==> (t'.phase == Done <==> Finishes(k, w, c, tid)))
    && (t.phase != InterSkip ==> (t'.phase == InterSkip <==> Pauses(k, w, c, tid)))
    && (t.phase != InterSkip && t'.phase == InterSkip && k.offsets == [] ==> t'.counter == k.interSkip)
    && (t'.registered <==> t.registered || (c == RegisterWorker(tid) && k.useMarkers))
    && (t'.master <==> t.master || (c == RoiBegin(tid) && k.useMarkers && !w.roiStarted))
  }

  lemma OtherPhase(k: Knobs, w: World, c: Callback, tid: nat)
    requires tid in w.threads && c.tid != tid
    ensures tid in Step(k, w, c).threads && Step(k, w, c).threads[tid] == w.threads[tid]
  {
    if !c.ThreadStart? && !c.ThreadFini? && c.tid in w.threads {
      StepTouchesOne(k, w, c);
    }
  }

  lemma RecordedFlags(k: Knobs, t: Thread)
    ensures Recorded(k, t).registered == t.registered && Recorded(k, t).master == t.master
  {
  }

  lemma CommitRule(k: Knobs, w: World, tid: nat)
    requires Startable(k) && tid in w.threads && ThreadOk(k, w.roiStarted, w.threads[tid])
    ensures tid in CommitRecord(k, w, tid).threads
    ensures PhaseRule(k, w, Commit(tid), tid, CommitRecord(k, w, tid).threads[tid])
  {
    if w.threads[tid].phase == Tracing {
      CommitPhase(k, w, tid);
      RecordedFlags(k, w.threads[tid]);
      assert CommitRecord(k, w, tid).threads[tid] == Recorded(k, w.threads[tid]);
    }
  }

  lemma BeginRule(k: Knobs, w: World, tid: nat)
    requires tid in w.threads && k.useMarkers && RoiOk(k, w.roiStarted, w.threads[tid])
    ensures tid in Begin(k, w, tid).threads
    ensures PhaseRule(k, w, RoiBegin(tid), tid, Begin(k, w, tid).threads[tid])
  {
  }

  lemma EndRule(k: Knobs, w: World, tid: nat)
    requires tid in w.threads && k.useMarkers
    ensures tid in End(k, w, tid).threads
    ensures PhaseRule(k, w, RoiEnd(tid), tid, End(k, w, tid).threads[tid])
  {
  }

  lemma CheckRule(k: Knobs, w: World, tid: nat)
    requires tid in w.threads
    ensures tid in Check(k, w, tid).threads
    ensures PhaseRule(k, w, CheckRoi(tid), tid, Check(k, w, tid).threads[tid])
  {
  }

  lemma SkipRule(k: Knobs, w: World, tid: nat, phase: Phase, n: nat)
    requires tid in w.threads && phase in {InitialSkip, InterSkip}
    ensures var c := if phase == InitialSkip then FastForwardInitial(tid, n) else FastForwardInter(tid, n);
            var w' := FastForward(k, w, tid, phase, n);
            tid in w'.threads && PhaseRule(k, w, c, tid, w'.threads[tid])
  {
    Regions.SkipEffect(k, w, tid, phase, n);
  }

  /** Every callback PIN can make, every live thread: it begins tracing, pauses between samples and is done exactly
      when the rules say, with a full counter in TRACING and the whole inter-sample skip ahead in INTER_SKIP. */
  lemma ThreadsFollowTheRules(k: Knobs, cs: seq<Callback>, c: Callback, tid: nat)
    requires Startable(k) && PinOrder(cs + [c])
    requires tid in Run(k, cs).threads && c != Callback.ThreadFini(tid)
    ensures tid in Run(k, cs + [c]).threads
    ensures PhaseRule(k, Run(k, cs), c, tid, Run(k, cs + [c]).threads[tid])
  {
    var w := Run(k, cs);
    RunSnoc(k, cs, c);
    RunKeeps(k, cs);
    assert EntryOk(k, w, w.threads[tid]);
    if c.tid != tid {
      OtherPhase(k, w, c, tid);
    } else {
      match c
      case RoiBegin(_) => if k.useMarkers { BeginRule(k, w, tid); }
      case RoiEnd(_) => if k.useMarkers { EndRule(k, w, tid); }
      case CheckRoi(_) => CheckRule(k, w, tid);
      case FastForwardInitial(_, n) => SkipRule(k, w, tid, InitialSkip, n);
      case FastForwardInter(_, n) => SkipRule(k, w, tid, InterSkip, n);
      case Commit(_) => CommitRule(k, w, tid);
      case RegisterWorker(_) =>
      case ThreadStart(_) =>
    }
  }

  // ---- the books ----

  /** The sets behind exit-on-done: a thread's number enters the first when it begins tracing and the second when it is
      done, and no other callback puts it there. */
  ghost predicate BookRule(k: Knobs, w: World, c: Callback, tid: nat, w': World)
    requires tid in w.threads && tid in w'.threads
  {
    var uid := w.threads[tid].uid;
    && w'.threads[tid].uid == uid
    && (uid in w'.started <==> uid in w.started || Begins(k, w, c, tid))
    && (uid in w'.done <==> uid in w.done || Finishes(k, w, c, tid))
  }

  /** A callback of a thread that is not registered, or of one that exits. */
  lemma StrangerBooks(k: Knobs, w: World, c: Callback)
    requires !c.ThreadStart? && (c.tid in w.threads ==> c.ThreadFini?)
    ensures Step(k, w, c).started == w.started && Step(k, w, c).done == w.done
  {
  }

  /** A start books the new thread under the next number, if it traces at once. */
  lemma StarterBooks(k: Knobs, w: World, tid: nat)
    ensures var w' := Start(k, w, tid);
            && w'.done == w.done
            && w'.started == if Excluded(k, RememberMain(w, tid).main, tid) || NewThread(k, w).phase != Tracing
                             then w.started else w.started + {w.next}
  {
  }

  lemma OtherBooks(k: Knobs, w: World, c: Callback, tid: nat)
    requires Inv(k, w) && tid in w.threads && c.tid != tid
    ensures tid in Step(k, w, c).threads && BookRule(k, w, c, tid, Step(k, w, c))
  {
    OtherPhase(k, w, c, tid);
    assert EntryOk(k, w, w.threads[tid]);
    if c.ThreadStart? {
      StarterBooks(k, w, c.tid);
    } else if c.ThreadFini? || c.tid !in w.threads {
      StrangerBooks(k, w, c);
    } else {
      StepTouchesOne(k, w, c);
    }
  }

  lemma CommitBooks(k: Knobs, w: World, tid: nat)
    requires Startable(k) && tid in w.threads && ThreadOk(k, w.roiStarted, w.threads[tid])
    ensures tid in CommitRecord(k, w, tid).threads && BookRule(k, w, Commit(tid), tid, CommitRecord(k, w, tid))
  {
    if w.threads[tid].phase == Tracing {
      CommitPhase(k, w, tid);
      RecordedSame(k, w.threads[tid]);
    }
  }

  lemma BeginBooks(k: Knobs, w: World, tid: nat)
    requires tid in w.threads && k.useMarkers
    ensures tid in Begin(k, w, tid).threads && BookRule(k, w, RoiBegin(tid), tid, Begin(k, w, tid))
  {
  }

  lemma EndBooks(k: Knobs, w: World, tid: nat)
    requires tid in w.threads && k.useMarkers
    ensures tid in End(k, w, tid).threads && BookRule(k, w, RoiEnd(tid), tid, End(k, w, tid))
  {
  }

  lemma CheckBooks(k: Knobs, w: World, tid: nat)
    requires tid in w.threads
    ensures tid in Check(k, w, tid).threads && BookRule(k, w, CheckRoi(tid), tid, Check(k, w, tid))
  {
  }

  lemma SkipBooks(k: Knobs, w: World, tid: nat, phase: Phase, n: nat)
    requires tid in w.threads && phase in {InitialSkip, InterSkip}
    ensures var c := if phase == InitialSkip then FastForwardInitial(tid, n) else FastForwardInter(tid, n);
            var w' := FastForward(k, w, tid, phase, n);
            tid in w'.threads && BookRule(k, w, c, tid, w')
  {
  }

  lemma BooksFollowTheRules(k: Knobs, cs: seq<Callback>, c: Callback, tid: nat)
    requires Startable(k) && PinOrder(cs + [c])
    requires tid in Run(k, cs).threads && c != Callback.ThreadFini(tid)
    ensures tid in Run(k, cs + [c]).threads
    ensures BookRule(k, Run(k, cs), c, tid, Run(k, cs + [c]))
  {
    var w := Run(k, cs);
    RunSnoc(k, cs, c);
    RunKeeps(k, cs);
    assert EntryOk(k, w, w.threads[tid]);
    if c.tid != tid {
      OtherBooks(k, w, c, tid);
    } else {
      match c
      case RoiBegin(_) => if k.useMarkers { BeginBooks(k, w, tid); }
      case RoiEnd(_) => if k.useMarkers { EndBooks(k, w, tid); }
      case CheckRoi(_) => CheckBooks(k, w, tid);
      case FastForwardInitial(_, n) => SkipBooks(k, w, tid, InitialSkip, n);
      case FastForwardInter(_, n) => SkipBooks(k, w, tid, InterSkip, n);
      case Commit(_) => CommitBooks(k, w, tid);
      case RegisterWorker(_) =>
      case ThreadStart(_) =>
    }
  }

  // ---- the start of a thread ----

  /** A new thread waits for the region of interest, or traces at once if that has begun; without markers it has its
      first skip ahead of it, or traces at once if there is none. */
  ghost predicate StartRule(k: Knobs, roiStarted: bool, t: Thread)
  {
    && !t.master && !t.registered && t.samples == 0 && t.current == 0 && t.completed == []
    && t.limit == (if k.offsets != [] && !k.useMarkers then |k.offsets| else k.numSamples)
    && var skip := if k.offsets != [] then k.offsets[0] else k.initialSkip;
       if k.useMarkers
       then if roiStarted then t.phase == Tracing && t.counter == k.traceCount else t.phase == WaitingForRoi
       else if skip > 0 then t.phase == InitialSkip && t.counter == skip
       else t.phase == Tracing && t.counter == k.traceCount
  }

  lemma NewThreadFollows(k: Knobs, w: World)
    ensures StartRule(k, w.roiStarted, NewThread(k, w))
  {
  }

  /** The thread that started first. */
  function FirstThread(cs: seq<Callback>): Option<nat>
  {
    if cs == [] then None
    else if FirstThread(cs[..|cs| - 1]).Some? then FirstThread(cs[..|cs| - 1])
    else if cs[|cs| - 1].ThreadStart? then Some(cs[|cs| - 1].tid)
    else None
  }

  lemma {:induction false} MainIsFirst(k: Knobs, cs: seq<Callback>)
    ensures Run(k, cs).main == FirstThread(cs)
  {
    if cs == [] {
    } else {
      MainIsFirst(k, cs[..|cs| - 1]);
      StepMain(k, Run(k, cs[..|cs| - 1]), cs[|cs| - 1]);
    }
  }

  lemma CommitMain(k: Knobs, w: World, tid: nat)
    ensures CommitRecord(k, w, tid).main == w.main
  {
  }

  lemma StepMain(k: Knobs, w: World, c: Callback)
    ensures Step(k, w, c).main == if w.main == None && c.ThreadStart? then Some(c.tid) else w.main
  {
    match c
    case Commit(tid) => CommitMain(k, w, tid);
    case _ =>
  }

  /** The knobs let this thread in. */
  predicate Admitted(k: Knobs, cs: seq<Callback>, tid: nat)
  {
    (k.mainThreadOnly ==> Some(tid) == FirstThread(cs)) && (k.traceTid >= 0 ==> tid == k.traceTid)
  }

  lemma StepRegisters(k: Knobs, w: World, c: Callback, tid: nat)
    ensures tid in Step(k, w, c).threads <==>
              if c == ThreadStart(tid) then tid in w.threads || !Excluded(k, RememberMain(w, tid).main, tid)
              else if c == Callback.ThreadFini(tid) then false
              else tid in w.threads
  {
    if c.tid != tid {
      StepOthers(k, w, c, tid);
    } else if !c.ThreadStart? && !c.ThreadFini? && tid in w.threads {
      StepTouchesOne(k, w, c);
    }
  }

  lemma StepOthers(k: Knobs, w: World, c: Callback, tid: nat)
    requires c.tid != tid
    ensures tid in Step(k, w, c).threads <==> tid in w.threads
  {
    if !c.ThreadStart? && !c.ThreadFini? && c.tid in w.threads {
      StepTouchesOne(k, w, c);
    }
  }

  lemma LiveStarted(cs: seq<Callback>)
    ensures FirstThread(cs) == None ==> Live(cs) == {}
  {
    if cs == [] {
    } else {
      LiveStarted(cs[..|cs| - 1]);
    }
  }

  /** The registered threads are exactly the live ones the knobs let in: with -main_thread_only only the thread that
      started first, with -trace_tid only that id. */
  lemma {:induction false} WhoIsRegistered(k: Knobs, cs: seq<Callback>, tid: nat)
    ensures tid in Run(k, cs).threads <==> tid in Live(cs) && Admitted(k, cs, tid)
  {
    if cs == [] {
    } else {
      var front, c := cs[..|cs| - 1], cs[|cs| - 1];
      WhoIsRegistered(k, front, tid);
      StepRegisters(k, Run(k, front), c, tid);
      MainIsFirst(k, front);
      LiveStarted(front);
    }
  }

  // ---- registered workers ----

  function RoiBegun(cs: seq<Callback>): bool
  {
    cs != [] && (RoiBegun(cs[..|cs| - 1]) || cs[|cs| - 1].RoiBegin?)
  }

  lemma {:induction false} RoiStartedIsBegun(k: Knobs, cs: seq<Callback>)
    ensures Run(k, cs).roiStarted <==> k.useMarkers && RoiBegun(cs)
  {
    if cs == [] {
    } else {
      RoiStartedIsBegun(k, cs[..|cs| - 1]);
      StepRoi(k, Run(k, cs[..|cs| - 1]), cs[|cs| - 1]);
    }
  }

  lemma StartRoi(k: Knobs, w: World, tid: nat)
    ensures Start(k, w, tid).roiStarted == w.roiStarted
  {
  }

  lemma CommitRoi(k: Knobs, w: World, tid: nat)
    ensures CommitRecord(k, w, tid).roiStarted == w.roiStarted
  {
  }

  lemma StepRoi(k: Knobs, w: World, c: Callback)
    ensures Step(k, w, c).roiStarted <==> w.roiStarted || (k.useMarkers && c.RoiBegin?)
  {
    match c
    case ThreadStart(tid) => StartRoi(k, w, tid);
    case Commit(tid) => CommitRoi(k, w, tid);
    case _ =>
  }

  /** The thread now running under this id started after the region of interest began. */
  function StartedLate(cs: seq<Callback>, tid: nat): bool
  {
    cs != [] &&
    var front, c := cs[..|cs| - 1], cs[|cs| - 1];
    if c == ThreadStart(tid) then RoiBegun(front) else StartedLate(front, tid)
  }

  /** Under -trace_only_registered_workers a thread that traces has registered, is the master, or started late. */
  ghost predicate Entitled(k: Knobs, cs: seq<Callback>, tid: nat)
  {
    tid in Run(k, cs).threads ==>
      var t := Run(k, cs).threads[tid];
      t.phase in {Tracing, InterSkip} ==> t.registered || t.master || StartedLate(cs, tid)
  }

  lemma LateSnoc(cs: seq<Callback>, c: Callback, tid: nat)
    ensures StartedLate(cs + [c], tid) == if c == ThreadStart(tid) then RoiBegun(cs) else StartedLate(cs, tid)
  {
    assert (cs + [c])[..|cs|] == cs;
  }

  lemma EntitledStep(k: Knobs, cs: seq<Callback>, c: Callback, tid: nat)
    requires Startable(k) && PinOrder(cs + [c]) && k.useMarkers && k.onlyRegistered && Entitled(k, cs, tid)
    ensures Entitled(k, cs + [c], tid)
  {
    RunSnoc(k, cs, c);
    LateSnoc(cs, c, tid);
    var w := Run(k, cs);
    StepRegisters(k, w, c, tid);
    if c == ThreadStart(tid) {
      RunKeeps(k, cs);
      NewThreadFollows(k, RememberMain(w, tid));
      RoiStartedIsBegun(k, cs);
    } else if tid in w.threads && c != Callback.ThreadFini(tid) {
      ThreadsFollowTheRules(k, cs, c, tid);
      RunKeeps(k, cs);
      assert EntryOk(k, w, w.threads[tid]);
    }
  }

  lemma {:induction false} OnlyTheEntitledTrace(k: Knobs, cs: seq<Callback>, tid: nat)
    requires Startable(k) && PinOrder(cs) && k.useMarkers && k.onlyRegistered
    ensures Entitled(k, cs, tid)
  {
    if cs == [] {
    } else {
      var front, c := cs[..|cs| - 1], cs[|cs| - 1];
      assert cs == front + [c];
      RunSnoc(k, front, c);
      OnlyTheEntitledTrace(k, front, tid);
      EntitledStep(k, front, c, tid);
    }
  }

  lemma StartPuts(k: Knobs, w: World, tid: nat)
    requires tid in Start(k, w, tid).threads && tid !in w.threads
    ensures Start(k, w, tid).threads[tid] == NewThread(k, RememberMain(w, tid))
  {
  }

  /** Registration is not asked of a thread that starts while the region of interest is on: it traces at once. */
  lemma LateThreadTraces(k: Knobs, cs: seq<Callback>, tid: nat)
    requires k.useMarkers && RoiBegun(cs) && tid !in Live(cs) && Admitted(k, cs + [ThreadStart(tid)], tid)
    ensures tid in Run(k, cs + [ThreadStart(tid)]).threads
    ensures var t := Run(k, cs + [ThreadStart(tid)]).threads[tid];
            t.phase == Tracing && t.counter == k.traceCount && !t.registered && !t.master
  {
    var c: Callback := ThreadStart(tid);
    assert (cs + [c])[..|cs|] == cs;
    WhoIsRegistered(k, cs, tid);
    WhoIsRegistered(k, cs + [c], tid);
    RoiStartedIsBegun(k, cs);
    StartPuts(k, Run(k, cs), tid);
    NewThreadFollows(k, RememberMain(Run(k, cs), tid));
  }

  const WORKERS_ONLY: Knobs := Knobs(true, 0, 0, 5, 1, false, true, true, false, -1, [])
  const ROI_ON: seq<Callback> := [ThreadStart(0), RoiBegin(0)]

  /** So with -trace_only_registered_workers a thread that never registered can be tracing. */
  lemma UnregisteredCanTrace()
    ensures var cs := ROI_ON + [ThreadStart(1)];
            && Startable(WORKERS_ONLY) && WORKERS_ONLY.onlyRegistered && PinOrder(cs)
            && 1 in Run(WORKERS_ONLY, cs).threads && Run(WORKERS_ONLY, cs).threads[1].phase == Tracing
            && RegisterWorker(1) !in cs
  {
    var cs := ROI_ON;
    assert cs[..1] == [ThreadStart(0)] && cs[..1][..0] == [];
    assert RoiBegun(cs) && Live(cs) == {0} && PinOrder(cs);
    assert (cs + [ThreadStart(1)])[..2] == cs;
    LateThreadTraces(WORKERS_ONLY, cs, 1);
  }
}
