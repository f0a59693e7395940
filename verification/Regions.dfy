/** Where in a thread's own instruction stream its samples are opened, in any run of the tracer: at the position
    asked for, plus what was skipped past the budget, plus what ran without being counted. */
module Regions {
  import opened Bytes
  import opened Offsets
  import opened PinRuns
  import opened PinSpec

  // ---- histories ----

  /** What threads do, with the calls the instrumentation attached. A trace that is compiled while some thread is
      tracing has no fast-forward calls, so a thread still skipping runs its instructions uncounted. */
  datatype Happening =
    | Called(c: Callback)            // a thread's start or exit, a marker, a check
    | Block(tid: nat, icount: nat)   // a basic block instrumented for skipping
    | Instruction(tid: nat)          // an instruction instrumented for recording
    | Bare(tid: nat, icount: nat)    // instructions instrumented for neither

  function Calls(h: Happening): seq<Callback>
  {
    match h
    case Called(c) => [c]
    case Block(tid, n) => [FastForwardInitial(tid, n), FastForwardInter(tid, n)]
    case Instruction(tid) => [Commit(tid)]
    case Bare(_, _) => []
  }

  function AllCalls(hs: seq<Happening>): seq<Callback>
  {
    if hs == [] then [] else AllCalls(hs[..|hs| - 1]) + Calls(hs[|hs| - 1])
  }

  predicate AttachedToCode(c: Callback)
  {
    c.FastForwardInitial? || c.FastForwardInter? || c.Commit?
  }

  predicate Possible(hs: seq<Happening>)
  {
    PinOrder(AllCalls(hs)) && forall h :: h in hs && h.Called? ==> !AttachedToCode(h.c)
  }

  function After(k: Knobs, hs: seq<Happening>): World
  {
    Run(k, AllCalls(hs))
  }

  // ---- what a thread executed ----

  predicate Starts(h: Happening, tid: nat)
  {
    h == Called(ThreadStart(tid))
  }

  /** How many of a thread's instructions a happening executes. */
  function Size(h: Happening, tid: nat): nat
  {
    match h
    case Block(t, n) => if t == tid then n else 0
    case Instruction(t) => if t == tid then 1 else 0
    case Bare(t, n) => if t == tid then n else 0
    case Called(_) => 0
  }

  /** The instructions the thread has executed since it started, whatever the tracer did about them. */
  function Executed(hs: seq<Happening>, tid: nat): nat
  {
    if hs == [] then 0 else
    var h := hs[|hs| - 1];
    if Starts(h, tid) then 0 else Executed(hs[..|hs| - 1], tid) + Size(h, tid)
  }

  /** The instructions of a block beyond the budget it uses up. */
  function Beyond(w: World, h: Happening, tid: nat): nat
  {
    if h.Block? && h.tid == tid && tid in w.threads && Skipping(w.threads[tid]) && w.threads[tid].counter <= h.icount
    then h.icount - w.threads[tid].counter else 0
  }

  function Overshoot(k: Knobs, hs: seq<Happening>, tid: nat): nat
  {
    if hs == [] then 0 else
    var front, h := hs[..|hs| - 1], hs[|hs| - 1];
    if Starts(h, tid) then 0 else Overshoot(k, front, tid) + Beyond(After(k, front), h, tid)
  }

  /** The call takes effect: the block is charged to a skip, or the instruction is recorded. */
  predicate Effective(w: World, h: Happening, tid: nat)
  {
    && tid in w.threads
    && match h
       case Block(_, _) => Skipping(w.threads[tid])
       case Instruction(_) => w.threads[tid].phase == Tracing
       case _ => false
  }

  /** The instructions executed with no call that took effect. */
  function Uncounted(k: Knobs, hs: seq<Happening>, tid: nat): nat
  {
    if hs == [] then 0 else
    var front, h := hs[..|hs| - 1], hs[|hs| - 1];
    if Starts(h, tid) then 0
    else Uncounted(k, front, tid) + if Effective(After(k, front), h, tid) then 0 else Size(h, tid)
  }

  // ---- the position a thread believes it is at ----

  /** Where sample i is meant to start: at its offset, or after the initial skip, the samples before it and as many
      inter-sample skips. */
  function SampleStart(k: Knobs, i: nat): nat
    requires k.offsets != [] ==> i < |k.offsets|
  {
    if k.offsets != [] then k.offsets[i] else k.initialSkip + i * (k.traceCount + k.interSkip)
  }

  lemma SamplesFollow(k: Knobs, i: nat)
    requires k.offsets == []
    ensures SampleStart(k, i + 1) == SampleStart(k, i) + k.traceCount + k.interSkip
  {
    var p := k.traceCount + k.interSkip;
    assert (i + 1) * p == i * p + p;
  }

  /** A thread of a skip-based run has a sample to go to, or has done them all. */
  ghost predicate OnTheList(k: Knobs, t: Thread)
  {
    && ThreadOk(k, false, t) && t.phase != WaitingForRoi
    && (k.offsets != [] ==> if t.phase == Done then t.samples == |k.offsets| else t.samples < |k.offsets|)
    && (t.phase == Done ==> t.samples > 0)
  }

  /** The position in its own stream that a thread's state stands for. */
  ghost function Position(k: Knobs, t: Thread): int
    requires OnTheList(k, t)
  {
    if t.phase == Tracing then SampleStart(k, t.samples) + t.current
    else if t.phase == Done then SampleStart(k, t.samples - 1) + k.traceCount
    else SampleStart(k, t.samples) - t.counter
  }

  /** What follows a finished sample, with the unsigned arithmetic worked out. */
  lemma NextRegion(k: Knobs, t: Thread)
    requires Startable(k) && k.offsets != [] && t.limit == |k.offsets| && t.samples < |k.offsets|
    ensures var next := t.samples + 1;
            var closed := t.(samples := next, completed := t.completed + [t.current]);
            FinishSample(k, t) == if next == |k.offsets| then closed.(phase := Done)
                                  else if Gap(k, next) > 0 then closed.(phase := InterSkip, counter := Gap(k, next))
                                  else StartSample(k, closed)
  {
    if t.samples + 1 < |k.offsets| {
      NextGapPlain(k, t.samples + 1);
    }
  }

  /** The record that completes a sample leaves the thread one instruction further on. */
  lemma FinishedPosition(k: Knobs, t: Thread)
    requires Startable(k) && !k.useMarkers && OnTheList(k, t) && t.phase == Tracing && t.counter == 1
    ensures OnTheList(k, Recorded(k, t)) && Position(k, Recorded(k, t)) == Position(k, t) + 1
  {
    RecordedOk(k, false, t);
    Sub64Plain(t.counter, 1);
    var last := t.(current := t.current + 1, counter := 0);
    if k.offsets != [] {
      FinishedListed(k, last);
    } else {
      FinishedPlainly(k, last);
    }
  }

  lemma FinishedListed(k: Knobs, t: Thread)
    requires Startable(k) && k.offsets != [] && ThreadOk(k, false, FinishSample(k, t)) && t.current == k.traceCount
    requires t.limit == |k.offsets| && t.samples < |k.offsets|
    ensures OnTheList(k, FinishSample(k, t))
    ensures Position(k, FinishSample(k, t)) == SampleStart(k, t.samples) + k.traceCount
  {
    NextRegion(k, t);
  }

  lemma FinishedPlainly(k: Knobs, t: Thread)
    requires Startable(k) && k.offsets == [] && ThreadOk(k, false, FinishSample(k, t)) && t.current == k.traceCount
    ensures OnTheList(k, FinishSample(k, t))
    ensures Position(k, FinishSample(k, t)) == SampleStart(k, t.samples) + k.traceCount
  {
    SamplesFollow(k, t.samples);
  }

  lemma RecordedPosition(k: Knobs, t: Thread)
    requires Startable(k) && !k.useMarkers && OnTheList(k, t) && t.phase == Tracing
    ensures OnTheList(k, Recorded(k, t)) && Position(k, Recorded(k, t)) == Position(k, t) + 1
  {
    if t.counter == 1 {
      FinishedPosition(k, t);
    } else {
      RecordedOk(k, false, t);
      Sub64Plain(t.counter, 1);
    }
  }

  lemma SkippedPosition(k: Knobs, t: Thread, n: nat)
    requires Startable(k) && !k.useMarkers && OnTheList(k, t) && Skipping(t)
    ensures OnTheList(k, SkipBlock(k, t, n)) && Position(k, SkipBlock(k, t, n)) == Position(k, t) + Min(n, t.counter)
  {
  }

  lemma NewPosition(k: Knobs, w: World)
    requires Startable(k) && !k.useMarkers
    ensures OnTheList(k, NewThread(k, w)) && Position(k, NewThread(k, w)) == 0
  {
    NewThreadOk(k, w.(roiStarted := false));
  }

  // ---- one happening ----

  function Follow(k: Knobs, w: World, cs: seq<Callback>): World
  {
    if cs == [] then w else Step(k, Follow(k, w, cs[..|cs| - 1]), cs[|cs| - 1])
  }

  lemma {:induction false} RunFollows(k: Knobs, a: seq<Callback>, b: seq<Callback>)
    ensures Run(k, a + b) == Follow(k, Run(k, a), b)
  {
    if b == [] {
      assert a + b == a;
    } else {
      var front, c := b[..|b| - 1], b[|b| - 1];
      assert a + b == a + front + [c];
      RunFollows(k, a, front);
      RunSnoc(k, a + front, c);
    }
  }

  lemma AfterSnoc(k: Knobs, hs: seq<Happening>, h: Happening)
    ensures After(k, hs + [h]) == Follow(k, After(k, hs), Calls(h))
    ensures AllCalls(hs + [h]) == AllCalls(hs) + Calls(h)
  {
    assert (hs + [h])[..|hs|] == hs;
    RunFollows(k, AllCalls(hs), Calls(h));
  }

  lemma PossibleSnoc(hs: seq<Happening>, h: Happening)
    requires Possible(hs + [h])
    ensures Possible(hs) && (h.Called? ==> !AttachedToCode(h.c))
    ensures h.Called? && h.c.ThreadStart? ==> h.c.tid !in Live(AllCalls(hs))
  {
    assert (hs + [h])[..|hs|] == hs && h in hs + [h];
    assert forall g :: g in hs ==> g in hs + [h];
    var calls := AllCalls(hs) + Calls(h);
    assert calls[..|AllCalls(hs)|] == AllCalls(hs);
    OrderPrefix(calls, |AllCalls(hs)|);
    if h.Called? {
      RunSnocOrder(AllCalls(hs), h.c);
    }
  }

  lemma RunSnocOrder(cs: seq<Callback>, c: Callback)
    ensures PinOrder(cs + [c]) <==> PinOrder(cs) && (c.ThreadStart? ==> c.tid !in Live(cs))
  {
    assert (cs + [c])[..|cs|] == cs;
  }

  /** A callback of another thread. */
  lemma StepOther(k: Knobs, w: World, c: Callback, tid: nat)
    requires c.tid != tid
    ensures SameAt(w, Step(k, w, c), tid)
  {
    if !c.ThreadStart? && !c.ThreadFini? && c.tid in w.threads {
      StepTouchesOne(k, w, c);
    }
  }

  ghost predicate SameAt(w: World, w': World, tid: nat)
  {
    (tid in w'.threads <==> tid in w.threads) && (tid in w.threads ==> w'.threads[tid] == w.threads[tid])
  }

  lemma FollowOne(k: Knobs, w: World, c: Callback)
    ensures Follow(k, w, [c]) == Step(k, w, c)
  {
    assert [c][..0] == [];
  }

  lemma FollowTwo(k: Knobs, w: World, c: Callback, d: Callback)
    ensures Follow(k, w, [c, d]) == Step(k, Step(k, w, c), d)
  {
    assert [c, d][..1] == [c];
    FollowOne(k, w, c);
  }

  function ThreadOf(h: Happening): nat
  {
    match h
    case Called(c) => c.tid
    case _ => h.tid
  }

  lemma FollowOther(k: Knobs, w: World, h: Happening, tid: nat)
    requires ThreadOf(h) != tid
    ensures SameAt(w, Follow(k, w, Calls(h)), tid)
  {
    match h
    case Called(c) =>
      FollowOne(k, w, c);
      StepOther(k, w, c, tid);
    case Block(t, n) =>
      var c, d := FastForwardInitial(t, n), FastForwardInter(t, n);
      FollowTwo(k, w, c, d);
      StepOther(k, w, c, tid);
      StepOther(k, Step(k, w, c), d, tid);
    case Instruction(t) =>
      FollowOne(k, w, Commit(t));
      StepOther(k, w, Commit(t), tid);
    case Bare(_, _) =>
  }

  lemma SkipEffect(k: Knobs, w: World, tid: nat, phase: Phase, n: nat)
    requires tid in w.threads && (phase == InitialSkip || phase == InterSkip)
    ensures var w', t := FastForward(k, w, tid, phase, n), w.threads[tid];
            tid in w'.threads && w'.threads[tid] == if t.phase == phase then SkipBlock(k, t, n) else t
  {
  }

  /** A block charges one skip, once: the other of its two calls is ignored. */
  lemma BlockEffect(k: Knobs, w: World, tid: nat, n: nat)
    requires tid in w.threads
    ensures var w', t := Follow(k, w, Calls(Block(tid, n))), w.threads[tid];
            tid in w'.threads && w'.threads[tid] == if Skipping(t) then SkipBlock(k, t, n) else t
  {
    FollowTwo(k, w, FastForwardInitial(tid, n), FastForwardInter(tid, n));
    SkipEffect(k, w, tid, InitialSkip, n);
    SkipEffect(k, FastForward(k, w, tid, InitialSkip, n), tid, InterSkip, n);
  }

  lemma InstructionEffect(k: Knobs, w: World, tid: nat)
    requires tid in w.threads
    ensures var w', t := Follow(k, w, Calls(Instruction(tid))), w.threads[tid];
            tid in w'.threads && w'.threads[tid] == if t.phase == Tracing then Recorded(k, t) else t
  {
    FollowOne(k, w, Commit(tid));
  }

  /** In a skip-based run the other callbacks of a live thread change nothing. */
  lemma CalledEffect(k: Knobs, w: World, c: Callback)
    requires !k.useMarkers && !w.roiStarted && !w.roiEnded
    requires !AttachedToCode(c) && !c.ThreadStart? && !c.ThreadFini?
    ensures Follow(k, w, Calls(Called(c))) == w
  {
    FollowOne(k, w, c);
  }

  // ---- every run ----

  /** Own position, by the thread's state and by what it executed. */
  ghost predicate Placed(k: Knobs, hs: seq<Happening>, tid: nat)
  {
    tid in After(k, hs).threads ==>
      var t := After(k, hs).threads[tid];
      && OnTheList(k, t)
      && Executed(hs, tid) == Position(k, t) + Overshoot(k, hs, tid) + Uncounted(k, hs, tid)
  }

  lemma Measures(k: Knobs, hs: seq<Happening>, h: Happening, tid: nat)
    requires !Starts(h, tid)
    ensures var w, all := After(k, hs), hs + [h];
            && Executed(all, tid) == Executed(hs, tid) + Size(h, tid)
            && Overshoot(k, all, tid) == Overshoot(k, hs, tid) + Beyond(w, h, tid)
            && Uncounted(k, all, tid) == Uncounted(k, hs, tid) + if Effective(w, h, tid) then 0 else Size(h, tid)
  {
    assert (hs + [h])[..|hs|] == hs;
  }

  lemma PlacedOther(k: Knobs, hs: seq<Happening>, h: Happening, tid: nat)
    requires !k.useMarkers && Placed(k, hs, tid) && ThreadOf(h) != tid
    ensures Placed(k, hs + [h], tid)
  {
    AfterSnoc(k, hs, h);
    FollowOther(k, After(k, hs), h, tid);
    Measures(k, hs, h, tid);
  }

  lemma PlacedStart(k: Knobs, hs: seq<Happening>, tid: nat)
    requires Startable(k) && !k.useMarkers && tid !in After(k, hs).threads
    ensures Placed(k, hs + [Called(ThreadStart(tid))], tid)
  {
    var w, c := After(k, hs), ThreadStart(tid);
    AfterSnoc(k, hs, Called(c));
    FollowOne(k, w, c);
    NewPosition(k, RememberMain(w, tid));
    assert (hs + [Called(c)])[..|hs|] == hs;
  }

  lemma PlacedBlock(k: Knobs, hs: seq<Happening>, tid: nat, n: nat)
    requires Startable(k) && !k.useMarkers && Placed(k, hs, tid) && tid in After(k, hs).threads
    ensures Placed(k, hs + [Block(tid, n)], tid)
  {
    var t := After(k, hs).threads[tid];
    AfterSnoc(k, hs, Block(tid, n));
    BlockEffect(k, After(k, hs), tid, n);
    Measures(k, hs, Block(tid, n), tid);
    if Skipping(t) {
      SkippedPosition(k, t, n);
    }
  }

  lemma PlacedInstruction(k: Knobs, hs: seq<Happening>, tid: nat)
    requires Startable(k) && !k.useMarkers && Placed(k, hs, tid) && tid in After(k, hs).threads
    ensures Placed(k, hs + [Instruction(tid)], tid)
  {
    var t := After(k, hs).threads[tid];
    AfterSnoc(k, hs, Instruction(tid));
    InstructionEffect(k, After(k, hs), tid);
    Measures(k, hs, Instruction(tid), tid);
    if t.phase == Tracing {
      RecordedPosition(k, t);
    }
  }

  /** Anything else the thread does. */
  lemma PlacedQuiet(k: Knobs, hs: seq<Happening>, h: Happening, tid: nat)
    requires !k.useMarkers && Placed(k, hs, tid) && ThreadOf(h) == tid && !h.Block? && !h.Instruction?
    requires !k.useMarkers && !After(k, hs).roiStarted && !After(k, hs).roiEnded
    requires h.Called? ==> !AttachedToCode(h.c) && !h.c.ThreadStart?
    ensures Placed(k, hs + [h], tid)
  {
    AfterSnoc(k, hs, h);
    Measures(k, hs, h, tid);
    if h.Called? {
      if h.c.ThreadFini? {
        FollowOne(k, After(k, hs), h.c);
      } else {
        CalledEffect(k, After(k, hs), h.c);
      }
    }
  }

  lemma StepAway(k: Knobs, w: World, c: Callback)
    requires c.tid !in w.threads && !c.ThreadStart?
    ensures c.tid !in Step(k, w, c).threads
  {
    StepLive(k, w, c);
  }

  /** A thread that is not registered executes nothing that registers it. */
  lemma StaysAway(k: Knobs, hs: seq<Happening>, h: Happening, tid: nat)
    requires tid !in After(k, hs).threads && ThreadOf(h) == tid && !Starts(h, tid)
    ensures tid !in After(k, hs + [h]).threads
  {
    var w := After(k, hs);
    AfterSnoc(k, hs, h);
    match h
    case Called(c) =>
      FollowOne(k, w, c);
      StepAway(k, w, c);
    case Block(_, n) =>
      FollowTwo(k, w, FastForwardInitial(tid, n), FastForwardInter(tid, n));
      StepAway(k, w, FastForwardInitial(tid, n));
      StepAway(k, Step(k, w, FastForwardInitial(tid, n)), FastForwardInter(tid, n));
    case Instruction(_) =>
      FollowOne(k, w, Commit(tid));
      StepAway(k, w, Commit(tid));
    case Bare(_, _) =>
  }

  lemma PlacedStep(k: Knobs, hs: seq<Happening>, h: Happening, tid: nat)
    requires Startable(k) && !k.useMarkers && Possible(hs + [h]) && Placed(k, hs, tid)
    ensures Placed(k, hs + [h], tid)
  {
    PossibleSnoc(hs, h);
    RunKeeps(k, AllCalls(hs));
    if ThreadOf(h) != tid {
      PlacedOther(k, hs, h, tid);
    } else if Starts(h, tid) {
      PlacedStart(k, hs, tid);
    } else if tid !in After(k, hs).threads {
      StaysAway(k, hs, h, tid);
    } else if h.Block? {
      PlacedBlock(k, hs, tid, h.icount);
    } else if h.Instruction? {
      PlacedInstruction(k, hs, tid);
    } else {
      PlacedQuiet(k, hs, h, tid);
    }
  }

  lemma {:induction false} AlwaysPlaced(k: Knobs, hs: seq<Happening>, tid: nat)
    requires Startable(k) && !k.useMarkers && Possible(hs)
    ensures Placed(k, hs, tid)
  {
    if hs == [] {
    } else {
      var front, h := hs[..|hs| - 1], hs[|hs| - 1];
      assert hs == front + [h];
      PossibleSnoc(front, h);
      AlwaysPlaced(k, front, tid);
      PlacedStep(k, front, h, tid);
    }
  }

  // ---- main results ----

  /** In every run, whatever the other threads do: a thread's own position is the nominal one its state stands
      for, plus what its skips ran past their budgets, plus what it executed uncounted. So record r of region i
      is the thread's own instruction offsets[i] + r if and only if both of those are zero. */
  lemma RegionsOpenWhereAsked(k: Knobs, hs: seq<Happening>, tid: nat)
    requires Startable(k) && k.offsets != [] && Possible(hs) && tid in After(k, hs).threads
    ensures OnTheList(k, After(k, hs).threads[tid])
    ensures var t := After(k, hs).threads[tid];
            && Executed(hs, tid) == Position(k, t) + Overshoot(k, hs, tid) + Uncounted(k, hs, tid)
            && (t.phase == Tracing ==>
                  (Executed(hs, tid) == k.offsets[t.samples] + t.current
                   <==> Overshoot(k, hs, tid) == 0 && Uncounted(k, hs, tid) == 0))
  {
    AlwaysPlaced(k, hs, tid);
  }

  /** The same without a list: sample i of a run with -i and -s starts after the initial skip, i samples and i
      inter-sample skips of the thread's own instructions, plus what was overrun or executed uncounted. */
  lemma SamplesOpenWhereAsked(k: Knobs, hs: seq<Happening>, tid: nat)
    requires Startable(k) && k.offsets == [] && !k.useMarkers && Possible(hs)
    requires tid in After(k, hs).threads && After(k, hs).threads[tid].phase == Tracing
    ensures var t := After(k, hs).threads[tid];
            Executed(hs, tid) == k.initialSkip + t.samples * (k.traceCount + k.interSkip) + t.current
                                 + Overshoot(k, hs, tid) + Uncounted(k, hs, tid)
  {
    AlwaysPlaced(k, hs, tid);
  }

  // ---- which instructions go uncounted ----

  ghost predicate SomeoneTraces(w: World)
  {
    exists tid :: tid in w.threads && w.threads[tid].phase == Tracing
  }

  /** All code is compiled under the present count of tracing threads: instrumented for recording while some
      thread traces, for skipping while none does. Entering and leaving TRACING discard older code, but what is
      left of a trace already running, and code from before a thread exited mid-trace, may still be stale. */
  ghost predicate FreshCode(k: Knobs, hs: seq<Happening>)
  {
    hs != [] ==>
      var front := hs[..|hs| - 1];
      && FreshCode(k, front)
      && match hs[|hs| - 1]
         case Called(_) => true
         case Block(_, _) => !SomeoneTraces(After(k, front))
         case Instruction(_) => SomeoneTraces(After(k, front))
         case Bare(_, _) => false
  }

  ghost predicate AnotherTraces(w: World, tid: nat)
  {
    exists other :: other in w.threads && other != tid && w.threads[other].phase == Tracing
  }

  /** The instructions a thread executed, not tracing itself, while another thread was. */
  ghost function Overlap(k: Knobs, hs: seq<Happening>, tid: nat): nat
  {
    if hs == [] then 0 else
    var front, h := hs[..|hs| - 1], hs[|hs| - 1];
    var w := After(k, front);
    if Starts(h, tid) then 0
    else Overlap(k, front, tid)
         + if tid in w.threads && w.threads[tid].phase != Tracing && AnotherTraces(w, tid) then Size(h, tid) else 0
  }

  /** In a skip-based run a thread that is done stays done until it exits. */
  lemma DoneStays(k: Knobs, hs: seq<Happening>, h: Happening, tid: nat)
    requires !k.useMarkers && Startable(k) && Possible(hs + [h]) && tid in After(k, hs + [h]).threads
    requires !Starts(h, tid)
    ensures tid in After(k, hs).threads
    ensures After(k, hs).threads[tid].phase == Done ==> After(k, hs + [h]).threads[tid].phase == Done
  {
    PossibleSnoc(hs, h);
    RunKeeps(k, AllCalls(hs));
    AfterSnoc(k, hs, h);
    if ThreadOf(h) != tid {
      FollowOther(k, After(k, hs), h, tid);
    } else if tid !in After(k, hs).threads {
      StaysAway(k, hs, h, tid);
    } else if h.Block? {
      BlockEffect(k, After(k, hs), tid, h.icount);
    } else if h.Instruction? {
      InstructionEffect(k, After(k, hs), tid);
    } else if h.Called? && !h.c.ThreadFini? {
      CalledEffect(k, After(k, hs), h.c);
    }
  }

  /** One happening of fresh code, for a thread that is not done: uncounted and overlapping are the same. */
  lemma FreshStep(k: Knobs, hs: seq<Happening>, h: Happening, tid: nat)
    requires FreshCode(k, hs + [h]) && !Starts(h, tid) && ThreadOf(h) == tid
    requires tid in After(k, hs).threads && After(k, hs).threads[tid].phase != Done
    requires !k.useMarkers && OnTheList(k, After(k, hs).threads[tid])
    ensures var w := After(k, hs);
            (if Effective(w, h, tid) then 0 else Size(h, tid))
            == if w.threads[tid].phase != Tracing && AnotherTraces(w, tid) then Size(h, tid) else 0
  {
    assert (hs + [h])[..|hs|] == hs;
    var w := After(k, hs);
    if h.Block? {
      assert !AnotherTraces(w, tid) && w.threads[tid].phase != Tracing;
    } else if h.Instruction? && w.threads[tid].phase != Tracing {
      var t :| t in w.threads && w.threads[t].phase == Tracing;
      assert t != tid;
    }
  }

  /** While a thread is not done, it executes uncounted exactly the instructions that overlap with another
      thread's tracing. */
  lemma {:induction false} UncountedIsOverlap(k: Knobs, hs: seq<Happening>, tid: nat)
    requires Startable(k) && !k.useMarkers && Possible(hs) && FreshCode(k, hs)
    requires tid in After(k, hs).threads && After(k, hs).threads[tid].phase != Done
    ensures Uncounted(k, hs, tid) == Overlap(k, hs, tid)
  {
    if hs == [] {
    } else {
      var front, h := hs[..|hs| - 1], hs[|hs| - 1];
      assert hs == front + [h];
      if !Starts(h, tid) {
        DoneStays(k, front, h, tid);
        PossibleSnoc(front, h);
        UncountedIsOverlap(k, front, tid);
        AlwaysPlaced(k, front, tid);
        if ThreadOf(h) == tid {
          FreshStep(k, front, h, tid);
        }
      }
    }
  }

  /** With -trace_tid only that thread is registered at all. */
  lemma {:induction false} OnlyOneThread(k: Knobs, cs: seq<Callback>)
    requires k.traceTid >= 0
    ensures Run(k, cs).threads.Keys <= {k.traceTid}
  {
    if cs == [] {
    } else {
      var front, c := cs[..|cs| - 1], cs[|cs| - 1];
      OnlyOneThread(k, front);
      StepLive(k, Run(k, front), c);
      if c.ThreadStart? && c.tid != k.traceTid {
        assert Excluded(k, RememberMain(Run(k, front), c.tid).main, c.tid);
      }
    }
  }

  lemma {:induction false} NoOverlapAlone(k: Knobs, hs: seq<Happening>)
    requires k.traceTid >= 0
    ensures Overlap(k, hs, k.traceTid) == 0
  {
    if hs == [] {
    } else {
      NoOverlapAlone(k, hs[..|hs| - 1]);
      OnlyOneThread(k, AllCalls(hs[..|hs| - 1]));
    }
  }

  /** With -trace_tid and fresh code nothing goes uncounted: record r of region i is the thread's own instruction
      offsets[i] + r if and only if no skip overran its last basic block. */
  lemma TraceTidIsExact(k: Knobs, hs: seq<Happening>)
    requires Startable(k) && k.offsets != [] && k.traceTid >= 0 && Possible(hs) && FreshCode(k, hs)
    requires k.traceTid in After(k, hs).threads && After(k, hs).threads[k.traceTid].phase == Tracing
    ensures var t := After(k, hs).threads[k.traceTid];
            && t.samples < |k.offsets|
            && Executed(hs, k.traceTid) == k.offsets[t.samples] + t.current + Overshoot(k, hs, k.traceTid)
  {
    RegionsOpenWhereAsked(k, hs, k.traceTid);
    UncountedIsOverlap(k, hs, k.traceTid);
    NoOverlapAlone(k, hs);
  }

  // ---- a region that opens late ----

  const ONE_REGION: Knobs := Knobs(false, 0, 0, 1, 0, false, false, false, false, -1, [1])

  const FIRST: seq<Happening> := [Called(ThreadStart(0))]
  const BOTH: seq<Happening> := FIRST + [Called(ThreadStart(1))]
  const FIRST_TRACES: seq<Happening> := BOTH + [Block(0, 1)]
  const SECOND_MISSED: seq<Happening> := FIRST_TRACES + [Instruction(1)]

  lemma CallIsPossible(hs: seq<Happening>, c: Callback)
    requires Possible(hs) && !AttachedToCode(c) && (c.ThreadStart? ==> c.tid !in Live(AllCalls(hs)))
    ensures Possible(hs + [Called(c)])
    ensures AllCalls(hs + [Called(c)]) == AllCalls(hs) + [c]
  {
    assert (hs + [Called(c)])[..|hs|] == hs;
    RunSnocOrder(AllCalls(hs), c);
  }

  lemma FirstStarts()
    ensures Possible(FIRST) && Live(AllCalls(FIRST)) == {0}
  {
    var c: Callback := ThreadStart(0);
    assert FIRST == [] + [Called(c)] && [c] == [] + [c] && [c][..0] == [];
    CallIsPossible([], c);
    assert Live([c]) == Live([]) + {0};
  }

  lemma BothSkip()
    ensures var w := After(ONE_REGION, BOTH);
            && Possible(BOTH) && Executed(BOTH, 1) == 0 && w.threads.Keys == {0, 1}
            && w.threads[0] == NewThread(ONE_REGION, INITIAL)
            && Skipping(w.threads[1]) && w.threads[1].counter == 1
  {
    var k := ONE_REGION;
    FirstStarts();
    assert FIRST == [] + [Called(ThreadStart(0))];
    AfterSnoc(k, [], Called(ThreadStart(0)));
    FollowOne(k, INITIAL, ThreadStart(0));
    CallIsPossible(FIRST, ThreadStart(1));
    AfterSnoc(k, FIRST, Called(ThreadStart(1)));
    FollowOne(k, After(k, FIRST), ThreadStart(1));
  }

  lemma MoreIsPossible(hs: seq<Happening>, h: Happening)
    requires Possible(hs) && !h.Called?
    ensures Possible(hs + [h])
  {
    assert (hs + [h])[..|hs|] == hs;
    var calls := AllCalls(hs);
    match h
    case Block(t, n) =>
      var c, d := FastForwardInitial(t, n), FastForwardInter(t, n);
      assert calls + [c, d] == calls + [c] + [d];
      RunSnocOrder(calls, c);
      RunSnocOrder(calls + [c], d);
    case Instruction(t) => RunSnocOrder(calls, Commit(t));
    case Bare(_, _) => assert calls + [] == calls;
  }

  /** What another thread executes. */
  lemma OtherRuns(k: Knobs, hs: seq<Happening>, h: Happening, tid: nat)
    requires Possible(hs) && !h.Called? && ThreadOf(h) != tid
    ensures Possible(hs + [h]) && Executed(hs + [h], tid) == Executed(hs, tid)
    ensures SameAt(After(k, hs), After(k, hs + [h]), tid)
  {
    MoreIsPossible(hs, h);
    AfterSnoc(k, hs, h);
    FollowOther(k, After(k, hs), h, tid);
    Measures(k, hs, h, tid);
  }

  /** An instruction instrumented for recording, of a thread that is still skipping. */
  lemma Missed(k: Knobs, hs: seq<Happening>, tid: nat)
    requires Possible(hs) && tid in After(k, hs).threads && Skipping(After(k, hs).threads[tid])
    ensures Possible(hs + [Instruction(tid)]) && Executed(hs + [Instruction(tid)], tid) == Executed(hs, tid) + 1
    ensures SameAt(After(k, hs), After(k, hs + [Instruction(tid)]), tid)
  {
    MoreIsPossible(hs, Instruction(tid));
    AfterSnoc(k, hs, Instruction(tid));
    InstructionEffect(k, After(k, hs), tid);
    Measures(k, hs, Instruction(tid), tid);
  }

  /** The block that uses up a skip. */
  lemma SkipEnds(k: Knobs, hs: seq<Happening>, tid: nat, n: nat)
    requires Possible(hs) && tid in After(k, hs).threads && Skipping(After(k, hs).threads[tid])
    requires After(k, hs).threads[tid].counter <= n
    ensures var after := After(k, hs + [Block(tid, n)]);
            && Possible(hs + [Block(tid, n)]) && Executed(hs + [Block(tid, n)], tid) == Executed(hs, tid) + n
            && tid in after.threads && after.threads[tid] == StartSample(k, After(k, hs).threads[tid])
  {
    MoreIsPossible(hs, Block(tid, n));
    AfterSnoc(k, hs, Block(tid, n));
    BlockEffect(k, After(k, hs), tid, n);
    Measures(k, hs, Block(tid, n), tid);
  }

  lemma FreshSnoc(k: Knobs, hs: seq<Happening>, h: Happening)
    requires FreshCode(k, hs) && !h.Bare?
    requires h.Block? ==> !SomeoneTraces(After(k, hs))
    requires h.Instruction? ==> SomeoneTraces(After(k, hs))
    ensures FreshCode(k, hs + [h])
  {
    assert (hs + [h])[..|hs|] == hs;
  }

  const FIRST_DONE: seq<Happening> := SECOND_MISSED + [Instruction(0)]

  lemma BothFresh()
    ensures FreshCode(ONE_REGION, BOTH)
  {
    assert FIRST == [] + [Called(ThreadStart(0))];
    FreshSnoc(ONE_REGION, [], Called(ThreadStart(0)));
    FreshSnoc(ONE_REGION, FIRST, Called(ThreadStart(1)));
  }

  /** Thread 0 traces, and thread 1 still has its skip to do. */
  lemma FirstIsTracing()
    ensures var w := After(ONE_REGION, FIRST_TRACES);
            && Possible(FIRST_TRACES) && FreshCode(ONE_REGION, FIRST_TRACES) && Executed(FIRST_TRACES, 1) == 0
            && 0 in w.threads && w.threads[0] == StartSample(ONE_REGION, NewThread(ONE_REGION, INITIAL))
            && 1 in w.threads && Skipping(w.threads[1]) && w.threads[1].counter == 1
  {
    BothSkip();
    BothFresh();
    SkipEnds(ONE_REGION, BOTH, 0, 1);
    OtherRuns(ONE_REGION, BOTH, Block(0, 1), 1);
    FreshSnoc(ONE_REGION, BOTH, Block(0, 1));
  }

  lemma SecondIsMissed()
    ensures var w := After(ONE_REGION, SECOND_MISSED);
            && Possible(SECOND_MISSED) && FreshCode(ONE_REGION, SECOND_MISSED) && Executed(SECOND_MISSED, 1) == 1
            && 0 in w.threads && w.threads[0] == StartSample(ONE_REGION, NewThread(ONE_REGION, INITIAL))
            && 1 in w.threads && Skipping(w.threads[1]) && w.threads[1].counter == 1
  {
    FirstIsTracing();
    Missed(ONE_REGION, FIRST_TRACES, 1);
    OtherRuns(ONE_REGION, FIRST_TRACES, Instruction(1), 0);
    FreshSnoc(ONE_REGION, FIRST_TRACES, Instruction(1));
  }

  lemma OneIsAll()
    ensures Recorded(ONE_REGION, StartSample(ONE_REGION, NewThread(ONE_REGION, INITIAL))).phase == Done
  {
  }

  /** Only threads 0 and 1 were ever started. */
  lemma OnlyTwo()
    ensures After(ONE_REGION, FIRST_DONE).threads.Keys <= {0, 1}
  {
    BothSkip();
    KeysStay(ONE_REGION, BOTH, Block(0, 1));
    KeysStay(ONE_REGION, FIRST_TRACES, Instruction(1));
    KeysStay(ONE_REGION, SECOND_MISSED, Instruction(0));
  }

  lemma KeysStay(k: Knobs, hs: seq<Happening>, h: Happening)
    requires !h.Called?
    ensures After(k, hs + [h]).threads.Keys <= After(k, hs).threads.Keys
  {
    var w := After(k, hs);
    AfterSnoc(k, hs, h);
    match h
    case Block(t, n) =>
      var c, d := FastForwardInitial(t, n), FastForwardInter(t, n);
      FollowTwo(k, w, c, d);
      StepLive(k, w, c);
      StepLive(k, Step(k, w, c), d);
    case Instruction(t) =>
      FollowOne(k, w, Commit(t));
      StepLive(k, w, Commit(t));
    case Bare(_, _) =>
  }

  lemma FirstIsDone()
    ensures var w := After(ONE_REGION, FIRST_DONE);
            && Possible(FIRST_DONE) && FreshCode(ONE_REGION, FIRST_DONE) && Executed(FIRST_DONE, 1) == 1
            && 0 in w.threads && w.threads[0].phase == Done && !SomeoneTraces(w)
            && 1 in w.threads && Skipping(w.threads[1]) && w.threads[1].counter == 1
  {
    SecondIsMissed();
    OneIsAll();
    MoreIsPossible(SECOND_MISSED, Instruction(0));
    AfterSnoc(ONE_REGION, SECOND_MISSED, Instruction(0));
    InstructionEffect(ONE_REGION, After(ONE_REGION, SECOND_MISSED), 0);
    OtherRuns(ONE_REGION, SECOND_MISSED, Instruction(0), 1);
    FreshSnoc(ONE_REGION, SECOND_MISSED, Instruction(0));
    OnlyTwo();
  }

  /** Both threads skip one instruction and record one. Thread 0 gets there first, and while it is tracing,
      thread 1 executes an instruction that is instrumented for recording: it is neither recorded nor charged to
      the skip. So thread 1's region, asked for at 1, opens at 2, although no skip overran and all code was fresh. */
  lemma RegionCanOpenLate()
    ensures Startable(ONE_REGION) && ONE_REGION.offsets[0] == 1
    ensures 0 in After(ONE_REGION, FIRST_DONE).threads && After(ONE_REGION, FIRST_DONE).threads[0].phase == Done
    ensures var hs := FIRST_DONE + [Block(1, 1)];
            && Possible(hs) && FreshCode(ONE_REGION, hs) && 1 in After(ONE_REGION, hs).threads
            && After(ONE_REGION, hs).threads[1].phase == Tracing && After(ONE_REGION, hs).threads[1].current == 0
            && Executed(hs, 1) == 2
  {
    FirstIsDone();
    SkipEnds(ONE_REGION, FIRST_DONE, 1, 1);
    FreshSnoc(ONE_REGION, FIRST_DONE, Block(1, 1));
  }
}
