/** The PIN tracer as it runs: thread-state objects, an atomic count of tracing threads and two one-shot
    counters, each callback proved to be a step of PinSpec's machine and every counter to be the number it
    stands for, in any interleaving. */
module PinTracer {
  import opened Bytes
  import opened PinRuns
  import opened PinSpec

  class ThreadState {
    ghost const uid: nat
    var phase: Phase
    var counter: U64
    var samplesCollected: nat
    const sampleLimit: nat
    var isMaster: bool
    var isRegisteredWorker: bool
    var everStartedTracing: bool
    var everReachedDone: bool
    var sampleRecords: nat    // in the open sample file
    var finished: seq<nat>    // records in each closed one

    ghost function View(): Thread
      reads this
    {
      Thread(uid, phase, counter, samplesCollected, sampleLimit, isMaster, isRegisteredWorker, sampleRecords, finished)
    }

    constructor (ghost t: Thread, phase: Phase, counter: U64, limit: nat)
      requires t == Thread(t.uid, phase, counter, 0, limit, false, false, 0, [])
      ensures View() == t && !everStartedTracing && !everReachedDone
    {
      uid, sampleLimit := t.uid, limit;
      this.phase, this.counter, samplesCollected := phase, counter, 0;
      isMaster, isRegisteredWorker, everStartedTracing, everReachedDone := false, false, false, false;
      sampleRecords, finished := 0, [];
    }

    /** phase := TRACING with a full counter and a new sample file. */
    method OpenSample(k: Knobs)
      modifies `phase, `counter, `sampleRecords
      ensures View() == StartSample(k, old(View()))
    {
      phase, counter, sampleRecords := Tracing, k.traceCount, 0;
    }

    method Stop()
      modifies `phase
      ensures View() == old(View()).(phase := Done)
    {
      phase := Done;
    }

    method Skip(icount: nat)
      requires icount < counter
      modifies `counter
      ensures View() == old(View()).(counter := old(counter) - icount)
    {
      counter := counter - icount;
    }

    /** One record written into the open sample. */
    method CountRecord()
      requires counter > 0
      modifies `counter, `sampleRecords
      ensures View() == old(View()).(current := old(sampleRecords) + 1, counter := Sub64(old(counter), 1))
    {
      Sub64Plain(counter, 1);
      sampleRecords, counter := sampleRecords + 1, counter - 1;
    }

    /** finish_sample, but for the bookkeeping of a thread that is done: whether tracing goes on. */
    method FinishSample(k: Knobs) returns (reEntered: bool)
      requires Startable(k) && sampleLimit == Quota(k) && (sampleLimit > 0 ==> samplesCollected < sampleLimit)
      modifies `phase, `counter, `sampleRecords, `samplesCollected, `finished
      ensures View() == PinSpec.FinishSample(k, old(View())) && reEntered == (phase == Tracing)
    {
      finished := finished + [sampleRecords];
      samplesCollected := samplesCollected + 1;
      if sampleLimit > 0 && samplesCollected >= sampleLimit {
        phase := Done;
        return false;
      }
      if k.offsets != [] {
        var next := samplesCollected;
        var prevEnd := (k.offsets[next - 1] + k.traceCount) % U64_SPAN;
        var gap := Sub64(k.offsets[next], prevEnd);
        if gap > 0 {
          phase, counter := InterSkip, gap;
          return false;
        }
        OpenSample(k);
        return true;
      }
      if k.interSkip > 0 {
        phase, counter := InterSkip, k.interSkip;
        return false;
      }
      OpenSample(k);
      reEntered := true;
    }
  }

  /** The threads now in TRACING. */
  ghost function TracingSet(threads: map<nat, Thread>): set<nat>
  {
    set tid | tid in threads && threads[tid].phase == Tracing
  }

  function IsTracing(t: Thread): int
  {
    if t.phase == Tracing then 1 else 0
  }

  function TracingAt(threads: map<nat, Thread>, tid: nat): int
  {
    if tid in threads then IsTracing(threads[tid]) else 0
  }

  lemma TracingOthers(threads: map<nat, Thread>, tid: nat)
    ensures |TracingSet(threads)| == |TracingSet(threads) - {tid}| + TracingAt(threads, tid)
  {
  }

  lemma TracingAdds(threads: map<nat, Thread>, tid: nat, t: Thread)
    ensures |TracingSet(threads[tid := t])| == |TracingSet(threads)| - TracingAt(threads, tid) + IsTracing(t)
  {
    TracingOthers(threads, tid);
    TracingOthers(threads[tid := t], tid);
    assert TracingSet(threads[tid := t]) - {tid} == TracingSet(threads) - {tid};
  }

  lemma TracingDrops(threads: map<nat, Thread>, tid: nat)
    ensures |TracingSet(threads - {tid})| == |TracingSet(threads)| - TracingAt(threads, tid)
  {
    TracingOthers(threads, tid);
    assert TracingSet(threads - {tid}) == TracingSet(threads) - {tid};
  }

  lemma PutTwice(w: World, tid: nat, a: Thread, b: Thread)
    ensures Put(Put(w, tid, a), tid, b) == Put(w, tid, b)
  {
    assert w.threads[tid := a][tid := b] == w.threads[tid := b];
  }

  class Tracer {
    const knobs: Knobs
    var threads: map<nat, ThreadState>
    var mainThread: Option<nat>
    var activeTracingThreads: int
    var roiStarted: bool
    var roiEnded: bool
    var threadsStartedTracing: nat
    var threadsReachedDone: nat
    var exitTriggered: bool
    ghost var world: World          // the machine's state
    ghost var owner: map<nat, nat>  // the thread id each thread number was created for

    /** One registered thread: its object shows its state, and its one-shot flags say what the sets say. */
    ghost predicate Entry(tid: nat, ts: ThreadState)
      reads `world, `owner, ts
    {
      && tid in world.threads && ts.View() == world.threads[tid]
      && ts.uid in owner && owner[ts.uid] == tid
      && (ts.everStartedTracing <==> ts.uid in world.started)
      && (ts.everReachedDone <==> ts.uid in world.done)
    }

    ghost predicate Entries()
      reads `world, `owner, `threads, threads.Values
    {
      && threads.Keys == world.threads.Keys
      && (forall tid :: tid in threads ==> Entry(tid, threads[tid]))
      && (forall uid :: uid in owner ==> uid < world.next)
    }

    /** The atomic flags and counters are what they stand for. */
    ghost predicate Atomics()
      reads this
    {
      && mainThread == world.main && roiStarted == world.roiStarted && roiEnded == world.roiEnded
      && exitTriggered == world.exiting
      && threadsStartedTracing == |world.started| && threadsReachedDone == |world.done|
      && activeTracingThreads == |TracingSet(world.threads)|
    }

    ghost predicate Represents()
      reads this, threads.Values
    {
      Entries() && Atomics()
    }

    ghost predicate Valid()
      reads this, threads.Values
    {
      Represents() && Startable(knobs) && Inv(knobs, world)
    }

    constructor (k: Knobs)
      requires Startable(k)
      ensures Valid() && world == INITIAL && knobs == k && threads == map[]
    {
      knobs, threads, mainThread, activeTracingThreads := k, map[], None, 0;
      roiStarted, roiEnded, exitTriggered, threadsStartedTracing, threadsReachedDone := false, false, false, 0, 0;
      world, owner := INITIAL, map[];
      new;
      assert TracingSet(world.threads) == {};
    }

    /** Count a thread the first time it enters TRACING. */
    method MarkStartedTracing(tid: nat, ts: ThreadState)
      requires Atomics() && Entry(tid, ts)
      modifies `threadsStartedTracing, `world, ts`everStartedTracing
      ensures Atomics() && Entry(tid, ts) && world == MarkStarted(old(world), ts.uid)
    {
      if ts.everStartedTracing {
        assert world.started + {ts.uid} == world.started;
        return;
      }
      ts.everStartedTracing := true;
      threadsStartedTracing := threadsStartedTracing + 1;
      world := MarkStarted(world, ts.uid);
    }

    method MaybeExitOnDone()
      modifies `exitTriggered
      ensures exitTriggered == (old(exitTriggered)
                                || (knobs.exitOnDone && 0 < threadsStartedTracing <= threadsReachedDone))
    {
      if !knobs.exitOnDone || threadsStartedTracing == 0 || threadsReachedDone < threadsStartedTracing {
        return;
      }
      exitTriggered := true;
    }

    /** Count a thread the first time it is done, and exit if it is the last. */
    method MarkReachedDone(tid: nat, ts: ThreadState)
      requires Atomics() && Entry(tid, ts)
      modifies `threadsReachedDone, `exitTriggered, `world, ts`everReachedDone
      ensures Atomics() && Entry(tid, ts) && world == MarkDone(knobs, old(world), ts.uid)
    {
      if ts.everReachedDone {
        return;
      }
      ts.everReachedDone := true;
      threadsReachedDone := threadsReachedDone + 1;
      MaybeExitOnDone();
      world := MarkDone(knobs, world, ts.uid);
    }

    // ---- what a callback does to its own thread ----

    /** phase := TRACING: the count goes up by one, since the thread was not tracing. */
    method OpenSample(tid: nat, ts: ThreadState)
      requires Atomics() && Entry(tid, ts) && ts.phase != Tracing
      modifies `activeTracingThreads, `world, ts`phase, ts`counter, ts`sampleRecords
      ensures Atomics() && Entry(tid, ts)
      ensures world == Put(old(world), tid, StartSample(knobs, old(ts.View())))
    {
      TracingAdds(world.threads, tid, StartSample(knobs, ts.View()));
      ts.OpenSample(knobs);
      activeTracingThreads := activeTracingThreads + 1;
      world := Put(world, tid, ts.View());
    }

    method EnterTracing(tid: nat, ts: ThreadState)
      requires Atomics() && Entry(tid, ts) && ts.phase != Tracing
      modifies `activeTracingThreads, `threadsStartedTracing, `world, ts
      ensures Atomics() && Entry(tid, ts)
      ensures world == PinSpec.EnterTracing(knobs, old(world), tid, old(ts.View()))
    {
      OpenSample(tid, ts);
      MarkStartedTracing(tid, ts);
    }

    /** phase := DONE: the count goes down if the thread was tracing. */
    method StopTracing(tid: nat, ts: ThreadState)
      requires Atomics() && Entry(tid, ts)
      modifies `activeTracingThreads, `world, ts
      ensures Atomics() && Entry(tid, ts)
      ensures world == Put(old(world), tid, old(ts.View()).(phase := Done))
    {
      var wasTracing := ts.phase == Tracing;
      ts.Stop();
      TracingAdds(world.threads, tid, ts.View());
      if wasTracing {
        activeTracingThreads := activeTracingThreads - 1;
      }
      world := Put(world, tid, ts.View());
    }

    method Finish(tid: nat, ts: ThreadState)
      requires Atomics() && Entry(tid, ts)
      modifies `activeTracingThreads, `threadsReachedDone, `exitTriggered, `world, ts
      ensures Atomics() && Entry(tid, ts)
      ensures world == PinSpec.Finish(knobs, old(world), tid, old(ts.View()))
    {
      StopTracing(tid, ts);
      MarkReachedDone(tid, ts);
    }

    /** finish_sample: the count goes down unless the next one opens at once. */
    method CloseSample(tid: nat, ts: ThreadState)
      requires Atomics() && Entry(tid, ts) && ts.phase == Tracing
      requires Startable(knobs) && ts.sampleLimit == Quota(knobs)
      requires ts.sampleLimit > 0 ==> ts.samplesCollected < ts.sampleLimit
      modifies `activeTracingThreads, `world, ts
      ensures Atomics() && Entry(tid, ts)
      ensures world == Put(old(world), tid, PinSpec.FinishSample(knobs, old(ts.View())))
    {
      TracingAdds(world.threads, tid, PinSpec.FinishSample(knobs, ts.View()));
      var reEntered := ts.FinishSample(knobs);
      if !reEntered {
        activeTracingThreads := activeTracingThreads - 1;
      }
      world := Put(world, tid, ts.View());
    }

    /** A sample is full. */
    method LeaveTracing(tid: nat, ts: ThreadState)
      requires Atomics() && Entry(tid, ts) && ts.phase == Tracing
      requires Startable(knobs) && ts.sampleLimit == Quota(knobs)
      requires ts.sampleLimit > 0 ==> ts.samplesCollected < ts.sampleLimit
      modifies `activeTracingThreads, `threadsReachedDone, `exitTriggered, `world, ts
      ensures Atomics() && Entry(tid, ts)
      ensures var t := PinSpec.FinishSample(knobs, old(ts.View()));
              var w := Put(old(world), tid, t);
              world == if t.phase == Done then MarkDone(knobs, w, t.uid) else w
    {
      CloseSample(tid, ts);
      if ts.phase == Done {
        MarkReachedDone(tid, ts);
      }
    }

    method CountRecord(tid: nat, ts: ThreadState)
      requires Atomics() && Entry(tid, ts) && ts.phase == Tracing && ts.counter > 0
      modifies `world, ts`counter, ts`sampleRecords
      ensures Atomics() && Entry(tid, ts)
      ensures var t := old(ts.View());
              world == Put(old(world), tid, t.(current := t.current + 1, counter := Sub64(t.counter, 1)))
    {
      ts.CountRecord();
      TracingAdds(world.threads, tid, ts.View());
      world := Put(world, tid, ts.View());
    }

    /** One record into the open sample, which may be its last. */
    method RecordInstr(tid: nat, ts: ThreadState)
      requires Atomics() && Entry(tid, ts) && Startable(knobs) && SamplesOk(knobs, ts.View())
      modifies `activeTracingThreads, `threadsReachedDone, `exitTriggered, `world, ts
      ensures Atomics() && Entry(tid, ts) && world == CommitRecord(knobs, old(world), tid)
    {
      if ts.phase != Tracing {
        return;
      }
      CountRecord(tid, ts);
      ghost var t := ts.View();
      PutTwice(old(world), tid, t, PinSpec.FinishSample(knobs, t));
      if ts.counter == 0 {
        LeaveTracing(tid, ts);
      }
    }

    // ---- the callbacks of a registered thread ----

    /** The first BEGIN wins: its thread becomes the master, which is traced, or with skip_master_tracing
        only orchestrates. */
    method RoiBegin(tid: nat, ts: ThreadState)
      requires Atomics() && Entry(tid, ts) && (!roiStarted ==> ts.phase != Tracing)
      modifies `roiStarted, `activeTracingThreads, `threadsStartedTracing, `threadsReachedDone, `exitTriggered
      modifies `world, ts
      ensures Atomics() && Entry(tid, ts) && world == Begin(knobs, old(world), tid)
    {
      if roiStarted {
        return;
      }
      BecomeMaster(tid, ts);
      ghost var w, t := old(world).(roiStarted := true), ts.View();
      PutTwice(w, tid, t, t.(phase := Done));
      PutTwice(w, tid, t, StartSample(knobs, t));
      PlaceMaster(tid, ts);
    }

    /** The master as an orchestrator: straight to DONE, with no correction of the count of tracing
        threads, which is right only because it cannot be tracing yet. */
    method Orchestrate(tid: nat, ts: ThreadState)
      requires Atomics() && Entry(tid, ts) && ts.phase != Tracing
      modifies `threadsReachedDone, `exitTriggered, `world, ts
      ensures Atomics() && Entry(tid, ts)
      ensures world == PinSpec.Finish(knobs, old(world), tid, old(ts.View()))
    {
      ts.Stop();
      TracingAdds(world.threads, tid, ts.View());
      world := Put(world, tid, ts.View());
      MarkReachedDone(tid, ts);
    }

    method PlaceMaster(tid: nat, ts: ThreadState)
      requires Atomics() && Entry(tid, ts) && ts.phase != Tracing
      modifies `activeTracingThreads, `threadsStartedTracing, `threadsReachedDone, `exitTriggered, `world, ts
      ensures Atomics() && Entry(tid, ts)
      ensures var t := old(ts.View());
              world == if knobs.skipMaster then PinSpec.Finish(knobs, old(world), tid, t)
                       else if t.phase == WaitingForRoi || t.phase == InitialSkip
                       then PinSpec.EnterTracing(knobs, old(world), tid, t)
                       else old(world)
    {
      if knobs.skipMaster {
        Orchestrate(tid, ts);
      } else if ts.phase == WaitingForRoi || ts.phase == InitialSkip {
        EnterTracing(tid, ts);
      }
    }

    method BecomeMaster(tid: nat, ts: ThreadState)
      requires Atomics() && Entry(tid, ts)
      modifies `roiStarted, `world, ts`isMaster
      ensures Atomics() && Entry(tid, ts)
      ensures world == Put(old(world).(roiStarted := true), tid, old(ts.View()).(master := true))
    {
      roiStarted := true;
      ts.isMaster := true;
      TracingAdds(world.threads, tid, ts.View());
      world := Put(world.(roiStarted := true), tid, ts.View());
    }

    method RegisterWorker(tid: nat, ts: ThreadState)
      requires Atomics() && Entry(tid, ts)
      modifies `world, ts`isRegisteredWorker
      ensures Atomics() && Entry(tid, ts)
      ensures world == Put(old(world), tid, old(ts.View()).(registered := true))
    {
      if !ts.isRegisteredWorker {
        ts.isRegisteredWorker := true;
      }
      TracingAdds(world.threads, tid, ts.View());
      world := Put(world, tid, ts.View());
    }

    /** The first END stops its own thread; the others find out at their next check. */
    method RoiEnd(tid: nat, ts: ThreadState)
      requires Atomics() && Entry(tid, ts)
      modifies `roiEnded, `activeTracingThreads, `threadsReachedDone, `exitTriggered, `world, ts
      ensures Atomics() && Entry(tid, ts) && world == End(knobs, old(world), tid)
    {
      if roiEnded {
        return;
      }
      roiEnded := true;
      world := world.(roiEnded := true);
      Finish(tid, ts);
    }

    method CheckRoiTransition(tid: nat, ts: ThreadState)
      requires Atomics() && Entry(tid, ts)
      modifies `activeTracingThreads, `threadsStartedTracing, `threadsReachedDone, `exitTriggered, `world, ts
      ensures Atomics() && Entry(tid, ts) && world == Check(knobs, old(world), tid)
    {
      if ts.phase == Done {
        return;
      }
      if roiEnded {
        Finish(tid, ts);
        return;
      }
      if roiStarted && ts.phase == WaitingForRoi {
        if knobs.onlyRegistered && !ts.isRegisteredWorker {
          return;
        }
        EnterTracing(tid, ts);
      }
    }

    /** A basic block of icount instructions is skipped; the block that uses up the budget starts a sample. */
    method SkipBlock(tid: nat, ts: ThreadState, phase: Phase, icount: nat)
      requires Atomics() && Entry(tid, ts) && phase != Tracing
      modifies `activeTracingThreads, `threadsStartedTracing, `world, ts
      ensures Atomics() && Entry(tid, ts) && world == FastForward(knobs, old(world), tid, phase, icount)
    {
      if ts.phase != phase {
        return;
      }
      if ts.counter > icount {
        ts.Skip(icount);
        TracingAdds(world.threads, tid, ts.View());
        world := Put(world, tid, ts.View());
      } else {
        EnterTracing(tid, ts);
      }
    }

    /** Any callback but a thread's start or exit. */
    method OnThread(c: Callback, ts: ThreadState)
      requires Atomics() && Entry(c.tid, ts) && !c.ThreadStart? && !c.ThreadFini?
      requires Startable(knobs) && SamplesOk(knobs, ts.View()) && RoiOk(knobs, roiStarted, ts.View())
      modifies `roiStarted, `roiEnded, `activeTracingThreads, `threadsStartedTracing, `threadsReachedDone
      modifies `exitTriggered, `world, ts
      ensures Atomics() && Entry(c.tid, ts) && world == Step(knobs, old(world), c)
    {
      match c
      case RoiBegin(tid) => if knobs.useMarkers { RoiBegin(tid, ts); }
      case RegisterWorker(tid) => if knobs.useMarkers { RegisterWorker(tid, ts); }
      case RoiEnd(tid) => if knobs.useMarkers { RoiEnd(tid, ts); }
      case CheckRoi(tid) => CheckRoiTransition(tid, ts);
      case FastForwardInitial(tid, n) => SkipBlock(tid, ts, InitialSkip, n);
      case FastForwardInter(tid, n) => SkipBlock(tid, ts, InterSkip, n);
      case Commit(tid) => RecordInstr(tid, ts);
    }

    // ---- any callback ----

    /** A step touched one thread and, of the sets, only its membership: the other entries still hold. */
    twostate lemma OthersHold(tid: nat)
      requires old(Entries()) && threads == old(threads) && owner == old(owner)
      requires tid in threads && Entry(tid, threads[tid])
      requires forall a :: a in threads && a != tid ==> unchanged(threads[a])
      requires TouchesOne(old(world), world, tid)
      ensures Entries()
    {
      assert old(Entry(tid, threads[tid]));
      forall a | a in threads ensures Entry(a, threads[a]) {
        assert old(Entry(a, threads[a]));
      }
    }

    lemma Distinct(tid: nat)
      requires Entries() && tid in threads
      ensures forall a :: a in threads && a != tid ==> threads[a] != threads[tid]
    {
      assert Entry(tid, threads[tid]);
      forall a | a in threads && a != tid ensures threads[a] != threads[tid] {
        assert Entry(a, threads[a]);
      }
    }

    /** A callback of a registered thread. */
    method Registered(c: Callback, ts: ThreadState)
      requires Represents() && Startable(knobs) && c.tid in threads && threads[c.tid] == ts
      requires !c.ThreadStart? && !c.ThreadFini? && ThreadOk(knobs, roiStarted, world.threads[c.tid])
      modifies this, ts
      ensures Represents() && world == Step(knobs, old(world), c) && threads == old(threads)
    {
      assert Entry(c.tid, ts);
      Distinct(c.tid);
      StepTouchesOne(knobs, world, c);
      OnThread(c, ts);
      OthersHold(c.tid);
    }

    /** Only flags moved: the entries still hold. */
    twostate lemma EntriesStay()
      requires old(Entries()) && threads == old(threads) && owner == old(owner)
      requires world.threads == old(world).threads && world.next == old(world).next
      requires world.started == old(world).started && world.done == old(world).done
      requires forall a :: a in threads ==> unchanged(threads[a])
      ensures Entries()
    {
      forall a | a in threads ensures Entry(a, threads[a]) {
        assert old(Entry(a, threads[a]));
      }
    }

    lemma UnregisteredStep(w: World, c: Callback)
      requires c.tid !in w.threads && !c.ThreadStart? && !c.ThreadFini?
      ensures Step(knobs, w, c) == if knobs.useMarkers && c.RoiBegin? then w.(roiStarted := true)
                                   else if knobs.useMarkers && c.RoiEnd? then w.(roiEnded := true)
                                   else w
    {
    }

    /** A callback from a thread that is not registered: only the flags of the region of interest move. */
    method Unregistered(c: Callback)
      requires Represents() && c.tid !in threads && !c.ThreadStart? && !c.ThreadFini?
      modifies `roiStarted, `roiEnded, `world
      ensures Represents() && world == Step(knobs, old(world), c)
    {
      UnregisteredStep(world, c);
      if knobs.useMarkers {
        if c.RoiBegin? {
          roiStarted, world := true, world.(roiStarted := true);
        } else if c.RoiEnd? {
          roiEnded, world := true, world.(roiEnded := true);
        }
      }
      EntriesStay();
    }

    // ---- thread start and exit ----

    /** The state a new thread starts in. */
    method CreateThread() returns (ts: ThreadState)
      requires Atomics()
      ensures fresh(ts) && ts.View() == NewThread(knobs, world)
      ensures !ts.everStartedTracing && !ts.everReachedDone
    {
      var phase, count, limit := WaitingForRoi, 0, knobs.numSamples;
      if knobs.useMarkers {
        if roiStarted {
          phase, count := Tracing, knobs.traceCount;
        }
      } else {
        var skip := knobs.initialSkip;
        if knobs.offsets != [] {
          limit, skip := |knobs.offsets|, knobs.offsets[0];
        }
        if skip > 0 {
          phase, count := InitialSkip, skip;
        } else {
          phase, count := Tracing, knobs.traceCount;
        }
      }
      ts := new ThreadState(NewThread(knobs, world), phase, count, limit);
    }

    /** Count a new thread that starts in TRACING. */
    method CountIn(tid: nat, ts: ThreadState)
      requires Atomics() && tid !in world.threads
      modifies `activeTracingThreads, `world
      ensures Atomics() && world == Put(old(world), tid, ts.View()).(next := old(world).next + 1)
    {
      TracingAdds(world.threads, tid, ts.View());
      world := Put(world, tid, ts.View()).(next := world.next + 1);
      if ts.phase == Tracing {
        activeTracingThreads := activeTracingThreads + 1;
      }
    }

    twostate lemma EntriesJoin(tid: nat)
      requires old(Entries()) && tid !in old(threads) && tid in threads
      requires threads == old(threads)[tid := threads[tid]]
      requires threads[tid].uid == old(world).next && owner == old(owner)[old(world).next := tid]
      requires world == Put(old(world), tid, threads[tid].View()).(next := old(world).next + 1)
      requires forall a :: a in old(threads) ==> unchanged(threads[a])
      requires Entry(tid, threads[tid])
      ensures Entries()
    {
      forall a | a in threads ensures Entry(a, threads[a]) {
        assert a != tid ==> old(Entry(a, threads[a]));
      }
    }

    /** thread_states[tid] = ts. */
    method Publish(tid: nat, ts: ThreadState)
      requires Represents() && tid !in threads && ts.uid == world.next
      requires ts.uid !in world.started && ts.uid !in world.done && !ts.everStartedTracing && !ts.everReachedDone
      modifies `threads, `activeTracingThreads, `world, `owner
      ensures Represents() && threads == old(threads)[tid := ts]
      ensures world == Put(old(world), tid, ts.View()).(next := old(world).next + 1)
    {
      threads := threads[tid := ts];
      owner := owner[ts.uid := tid];
      CountIn(tid, ts);
      EntriesJoin(tid);
    }

    /** Mark a published thread as started. */
    method MarkNew(tid: nat, ts: ThreadState)
      requires Represents() && tid in threads && threads[tid] == ts
      modifies `threadsStartedTracing, `world, ts`everStartedTracing
      ensures Represents()
      ensures world == MarkStarted(old(world), ts.uid)
    {
      assert Entry(tid, ts);
      assert world.threads == world.threads[tid := ts.View()];
      MarkStartedTracing(tid, ts);
      OthersHold(tid);
    }

    /** Publish a new thread and, if it starts in TRACING, mark it as started. */
    method Announce(tid: nat, ts: ThreadState)
      requires Represents() && tid !in threads && ts.uid == world.next
      requires ts.uid !in world.started && ts.uid !in world.done && !ts.everStartedTracing && !ts.everReachedDone
      modifies `threads, `activeTracingThreads, `threadsStartedTracing, `world, `owner, ts`everStartedTracing
      ensures Represents() && threads == old(threads)[tid := ts]
      ensures var w := Put(old(world), tid, old(ts.View())).(next := old(world).next + 1);
              world == if old(ts.phase) == Tracing then MarkStarted(w, ts.uid) else w
    {
      Publish(tid, ts);
      if ts.phase == Tracing {
        MarkNew(tid, ts);
      }
    }

    /** The first thread is remembered; a thread the knobs exclude is not registered at all. */
    method ThreadStart(tid: nat)
      requires Represents() && tid !in threads && world.next !in world.started && world.next !in world.done
      modifies this
      ensures Represents() && world == Start(knobs, old(world), tid)
      ensures fresh(threads.Values - old(threads.Values))
    {
      RememberMain(tid);
      if Excluded(knobs, mainThread, tid) {
        return;
      }
      Enlist(tid);
    }

    method Enlist(tid: nat)
      requires Represents() && tid !in threads && world.next !in world.started && world.next !in world.done
      modifies `threads, `activeTracingThreads, `threadsStartedTracing, `world, `owner
      ensures Represents() && fresh(threads.Values - old(threads.Values))
      ensures world == PinSpec.Enlist(knobs, old(world), tid)
    {
      var ts := CreateThread();
      Announce(tid, ts);
    }

    method RememberMain(tid: nat)
      requires Represents()
      modifies `mainThread, `world
      ensures Represents()
      ensures world == PinSpec.RememberMain(old(world), tid)
    {
      if mainThread == None {
        mainThread, world := Some(tid), world.(main := Some(tid));
      }
    }

    /** Take a thread that exits mid-trace out of the count. */
    method CountOut(tid: nat, tracing: bool)
      requires Atomics() && tracing == (TracingAt(world.threads, tid) == 1)
      modifies `activeTracingThreads, `world
      ensures Atomics() && world == Step(knobs, old(world), Callback.ThreadFini(tid))
    {
      TracingDrops(world.threads, tid);
      if tracing {
        activeTracingThreads := activeTracingThreads - 1;
      }
      world := world.(threads := world.threads - {tid});
    }

    twostate lemma EntriesLeave(tid: nat)
      requires old(Entries()) && threads == old(threads) - {tid} && owner == old(owner)
      requires world == old(world).(threads := old(world).threads - {tid})
      requires forall a :: a in threads ==> unchanged(threads[a])
      ensures Entries()
    {
      forall a | a in threads ensures Entry(a, threads[a]) {
        assert old(Entry(a, threads[a]));
      }
    }

    method ThreadFini(tid: nat)
      requires Represents()
      modifies `threads, `activeTracingThreads, `world
      ensures Represents() && threads == old(threads) - {tid}
      ensures world == Step(knobs, old(world), Callback.ThreadFini(tid))
    {
      assert tid in threads ==> Entry(tid, threads[tid]);
      var tracing := tid in threads && threads[tid].phase == Tracing;
      threads := threads - {tid};
      CountOut(tid, tracing);
      EntriesLeave(tid);
    }

    /** What the callback may rely on. */
    ghost predicate Expected(c: Callback)
      reads this, threads.Values
    {
      && Represents() && Startable(knobs)
      && (c.ThreadStart? ==> c.tid !in threads && world.next !in world.started && world.next !in world.done)
      && (c.tid in world.threads ==> ThreadOk(knobs, world.roiStarted, world.threads[c.tid]))
    }

    method Perform(c: Callback)
      requires Expected(c)
      modifies this, threads.Values
      ensures Represents() && world == Step(knobs, old(world), c)
      ensures fresh(threads.Values - old(threads.Values))
    {
      if c.ThreadStart? {
        ThreadStart(c.tid);
      } else if c.ThreadFini? {
        ThreadFini(c.tid);
      } else if c.tid in threads {
        Registered(c, threads[c.tid]);
      } else {
        Unregistered(c);
      }
    }

    method Totals() returns (active: int, startedTracing: nat, reachedDone: nat, exited: bool)
      requires Valid()
      ensures active == |TracingSet(world.threads)| && exited == world.exiting
      ensures startedTracing == |world.started| && reachedDone == |world.done|
    {
      active, startedTracing := activeTracingThreads, threadsStartedTracing;
      reachedDone, exited := threadsReachedDone, exitTriggered;
    }

    /** Any callback PIN can make. */
    method Handle(c: Callback)
      requires Valid() && (c.ThreadStart? ==> c.tid !in threads)
      modifies this, threads.Values
      ensures Valid() && world == Step(knobs, old(world), c)
      ensures fresh(threads.Values - old(threads.Values))
    {
      StepKeeps(knobs, world, c);
      assert c.tid in world.threads ==> EntryOk(knobs, world, world.threads[c.tid]);
      Perform(c);
    }

    /** The object after a run that leads to w. */
    ghost predicate Shows(k: Knobs, w: World)
      reads this, threads.Values
    {
      knobs == k && Valid() && world == w
    }

    /** The next callback of a run. */
    method Next(ghost k: Knobs, ghost cs: seq<Callback>, ghost i: nat, c: Callback)
      requires Startable(k) && PinOrder(cs) && i < |cs| && c == cs[i] && Shows(k, Run(k, cs[..i]))
      modifies this, threads.Values
      ensures Shows(k, Run(k, cs[..i + 1])) && fresh(threads.Values - old(threads.Values))
    {
      NextCallback(k, cs, i);
      Handle(c);
    }
  }

  /** Every run, whatever the interleaving: at its end the atomic count is the number of registered threads
      in TRACING, the one-shot counters are the numbers of threads that ever started and ever finished, and
      the exit flag is the machine's. */
  method Replay(k: Knobs, cs: seq<Callback>)
    returns (active: int, startedTracing: nat, reachedDone: nat, exited: bool)
    requires Startable(k) && PinOrder(cs)
    ensures var w := Run(k, cs);
            && active == |TracingSet(w.threads)|
            && startedTracing == |w.started| && reachedDone == |w.done| && exited == w.exiting
  {
    var t := new Tracer(k);
    for i := 0 to |cs|
      invariant fresh(t) && fresh(t.threads.Values) && t.Shows(k, Run(k, cs[..i]))
    {
      t.Next(k, cs, i, cs[i]);
    }
    assert cs[..|cs|] == cs;
    active, startedTracing, reachedDone, exited := t.Totals();
  }

  lemma NextCallback(k: Knobs, cs: seq<Callback>, i: nat)
    requires Startable(k) && PinOrder(cs) && i < |cs|
    ensures Run(k, cs[..i + 1]) == Step(k, Run(k, cs[..i]), cs[i])
    ensures cs[i].ThreadStart? ==> cs[i].tid !in Run(k, cs[..i]).threads
  {
    assert cs[..i + 1] == cs[..i] + [cs[i]];
    RunSnoc(k, cs[..i], cs[i]);
    OrderPrefix(cs, i + 1);
    RunKeeps(k, cs[..i]);
  }
}
