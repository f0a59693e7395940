/** What every run of the PIN tracer keeps, whatever the interleaving of callbacks. */
module PinRuns {
  import opened PinSpec

  // ---- the invariant of all threads ----

  /** Skip-based runs: a thread has started exactly when it left its initial skip, and is done exactly when
      its quota was met. */
  ghost predicate BookOk(started: set<nat>, done: set<nat>, t: Thread)
  {
    && (t.uid in started <==> t.phase == Tracing || t.phase == InterSkip || t.phase == Done)
    && (t.uid in done <==> t.phase == Done)
  }

  ghost predicate EntryOk(k: Knobs, w: World, t: Thread)
  {
    && ThreadOk(k, w.roiStarted, t) && t.uid < w.next
    && (!k.useMarkers ==> BookOk(w.started, w.done, t))
  }

  ghost predicate Inv(k: Knobs, w: World)
  {
    && (forall tid :: tid in w.threads ==> EntryOk(k, w, w.threads[tid]))
    && (forall a, b :: a in w.threads && b in w.threads && w.threads[a].uid == w.threads[b].uid ==> a == b)
    && (forall u :: u in w.started ==> u < w.next) && (forall u :: u in w.done ==> u < w.next)
    && (!k.useMarkers ==> !w.roiStarted && !w.roiEnded && w.done <= w.started)
  }

  /** One thread moves, and at most its own number is added to the started and done sets. */
  lemma MoveKeeps(k: Knobs, w: World, w': World, tid: nat, t: Thread)
    requires Inv(k, w) && tid in w.threads && t.uid == w.threads[tid].uid
    requires w'.threads == w.threads[tid := t] && w'.next == w.next
    requires w'.roiStarted == w.roiStarted && w'.roiEnded == w.roiEnded
    requires w.started <= w'.started <= w.started + {t.uid} && w.done <= w'.done <= w.done + {t.uid}
    requires ThreadOk(k, w.roiStarted, t)
    requires !k.useMarkers ==> BookOk(w'.started, w'.done, t)
    ensures Inv(k, w')
  {
    forall a | a in w'.threads ensures EntryOk(k, w', w'.threads[a]) {
      assert EntryOk(k, w, w.threads[a]);
    }
  }

  lemma EnterKeeps(k: Knobs, w: World, tid: nat, t: Thread)
    requires Startable(k) && Inv(k, w) && tid in w.threads && t.uid == w.threads[tid].uid
    requires SamplesOk(k, t) && t.phase != Done && t.phase != Tracing && (k.useMarkers ==> w.roiStarted)
    requires !k.useMarkers ==> t.phase == w.threads[tid].phase
    ensures Inv(k, EnterTracing(k, w, tid, t))
  {
    assert EntryOk(k, w, w.threads[tid]);
    MoveKeeps(k, w, EnterTracing(k, w, tid, t), tid, StartSample(k, t));
  }

  /** Forced to DONE: only with markers on. */
  lemma FinishKeeps(k: Knobs, w: World, tid: nat, t: Thread)
    requires k.useMarkers && Inv(k, w) && tid in w.threads && t.uid == w.threads[tid].uid && SamplesOk(k, t)
    ensures Inv(k, Finish(k, w, tid, t))
  {
    MoveKeeps(k, w, Finish(k, w, tid, t), tid, t.(phase := Done));
  }

  lemma FlagsKeep(k: Knobs, w: World, started: bool, ended: bool)
    requires k.useMarkers && Inv(k, w) && (w.roiStarted ==> started)
    ensures Inv(k, w.(roiStarted := started, roiEnded := ended))
  {
  }

  /** A new thread joins under the next number. */
  lemma JoinKeeps(k: Knobs, w: World, w': World, tid: nat, t: Thread)
    requires Inv(k, w) && tid !in w.threads && t.uid == w.next && w'.next == w.next + 1
    requires w'.threads == w.threads[tid := t] && w'.roiStarted == w.roiStarted && w'.roiEnded == w.roiEnded
    requires w'.done == w.done && w'.started == w.started + if t.phase == Tracing then {t.uid} else {}
    requires ThreadOk(k, w.roiStarted, t) && (k.useMarkers || t.phase in {InitialSkip, Tracing})
    ensures Inv(k, w')
  {
    forall a | a in w'.threads
      ensures EntryOk(k, w', w'.threads[a]) && (a != tid ==> w'.threads[a].uid < w.next)
    {
      if a != tid {
        assert EntryOk(k, w, w.threads[a]);
      }
    }
  }

  lemma StartKeeps(k: Knobs, w: World, tid: nat)
    requires Startable(k) && Inv(k, w) && tid !in w.threads
    ensures Inv(k, Start(k, w, tid))
  {
    var w1 := RememberMain(w, tid);
    assert Inv(k, w1) by {
      assert forall a :: a in w.threads ==> EntryOk(k, w, w.threads[a]) ==> EntryOk(k, w1, w.threads[a]);
    }
    if !Excluded(k, w1.main, tid) {
      NewThreadOk(k, w1);
      JoinKeeps(k, w1, Enlist(k, w1, tid), tid, NewThread(k, w1));
    }
  }

  lemma BeginKeeps(k: Knobs, w: World, tid: nat)
    requires Startable(k) && k.useMarkers && Inv(k, w)
    ensures Inv(k, Begin(k, w, tid))
  {
    if !w.roiStarted && tid in w.threads {
      var w1, t := w.(roiStarted := true), w.threads[tid].(master := true);
      FlagsKeep(k, w, true, w.roiEnded);
      assert EntryOk(k, w1, w.threads[tid]);
      if k.skipMaster {
        FinishKeeps(k, w1, tid, t);
      } else if t.phase == WaitingForRoi || t.phase == InitialSkip {
        EnterKeeps(k, w1, tid, t);
      } else {
        MoveKeeps(k, w1, Put(w1, tid, t), tid, t);
      }
    } else if !w.roiStarted {
      FlagsKeep(k, w, true, w.roiEnded);
    }
  }

  lemma EndKeeps(k: Knobs, w: World, tid: nat)
    requires Startable(k) && k.useMarkers && Inv(k, w)
    ensures Inv(k, End(k, w, tid))
  {
    FlagsKeep(k, w, w.roiStarted, true);
    var w1 := w.(roiEnded := true);
    if tid in w.threads {
      assert EntryOk(k, w, w.threads[tid]);
      FinishKeeps(k, w1, tid, w.threads[tid]);
    }
  }

  lemma CheckKeeps(k: Knobs, w: World, tid: nat)
    requires Startable(k) && Inv(k, w)
    ensures Inv(k, Check(k, w, tid))
  {
    if tid in w.threads && w.threads[tid].phase != Done {
      var t := w.threads[tid];
      assert EntryOk(k, w, t);
      if w.roiEnded {
        FinishKeeps(k, w, tid, t);
      } else if w.roiStarted && t.phase == WaitingForRoi {
        EnterKeeps(k, w, tid, t);
      }
    }
  }

  lemma SkipOnKeeps(k: Knobs, w: World, tid: nat, n: nat)
    requires Inv(k, w) && tid in w.threads && w.threads[tid].counter > n
    requires w.threads[tid].phase == InitialSkip || w.threads[tid].phase == InterSkip
    ensures Inv(k, Put(w, tid, w.threads[tid].(counter := w.threads[tid].counter - n)))
  {
    var t := w.threads[tid].(counter := w.threads[tid].counter - n);
    assert EntryOk(k, w, w.threads[tid]);
    MoveKeeps(k, w, Put(w, tid, t), tid, t);
  }

  lemma SkipEndKeeps(k: Knobs, w: World, tid: nat)
    requires Startable(k) && Inv(k, w) && tid in w.threads
    requires w.threads[tid].phase == InitialSkip || w.threads[tid].phase == InterSkip
    ensures Inv(k, EnterTracing(k, w, tid, w.threads[tid]))
  {
    assert EntryOk(k, w, w.threads[tid]);
    EnterKeeps(k, w, tid, w.threads[tid]);
  }

  lemma FastForwardKeeps(k: Knobs, w: World, tid: nat, phase: Phase, n: nat)
    requires Startable(k) && Inv(k, w) && (phase == InitialSkip || phase == InterSkip)
    ensures Inv(k, FastForward(k, w, tid, phase, n))
  {
    if tid in w.threads && w.threads[tid].phase == phase {
      var t := w.threads[tid];
      if t.counter > n {
        SkipOnKeeps(k, w, tid, n);
        assert FastForward(k, w, tid, phase, n) == Put(w, tid, t.(counter := t.counter - n));
      } else {
        SkipEndKeeps(k, w, tid);
        assert FastForward(k, w, tid, phase, n) == EnterTracing(k, w, tid, t);
      }
    }
  }

  lemma CommitKeeps(k: Knobs, w: World, tid: nat)
    requires Startable(k) && Inv(k, w)
    ensures Inv(k, CommitRecord(k, w, tid))
  {
    if tid in w.threads && w.threads[tid].phase == Tracing {
      assert EntryOk(k, w, w.threads[tid]);
      RecordedOk(k, w.roiStarted, w.threads[tid]);
      MoveKeeps(k, w, CommitRecord(k, w, tid), tid, Recorded(k, w.threads[tid]));
    }
  }

  lemma FiniKeeps(k: Knobs, w: World, tid: nat)
    requires Inv(k, w)
    ensures Inv(k, w.(threads := w.threads - {tid}))
  {
  }

  lemma RegisterKeeps(k: Knobs, w: World, tid: nat)
    requires Inv(k, w) && tid in w.threads
    ensures Inv(k, Put(w, tid, w.threads[tid].(registered := true)))
  {
    assert EntryOk(k, w, w.threads[tid]);
    var t := w.threads[tid].(registered := true);
    MoveKeeps(k, w, Put(w, tid, t), tid, t);
  }

  lemma StepKeeps(k: Knobs, w: World, c: Callback)
    requires Startable(k) && Inv(k, w) && (c.ThreadStart? ==> c.tid !in w.threads)
    ensures Inv(k, Step(k, w, c))
  {
    match c
    case ThreadStart(tid) => StartKeeps(k, w, tid);
    case ThreadFini(tid) => FiniKeeps(k, w, tid);
    case RoiBegin(tid) => if k.useMarkers { BeginKeeps(k, w, tid); }
    case RegisterWorker(tid) => if tid in w.threads { RegisterKeeps(k, w, tid); }
    case RoiEnd(tid) => if k.useMarkers { EndKeeps(k, w, tid); }
    case CheckRoi(tid) => CheckKeeps(k, w, tid);
    case FastForwardInitial(tid, n) => FastForwardKeeps(k, w, tid, InitialSkip, n);
    case FastForwardInter(tid, n) => FastForwardKeeps(k, w, tid, InterSkip, n);
    case Commit(tid) => CommitKeeps(k, w, tid);
  }

  /** The same threads, and all but tid as they were. */
  ghost predicate TouchesOnly(w: World, w': World, tid: nat)
  {
    && w'.threads.Keys == w.threads.Keys && w'.next == w.next
    && forall a :: a in w.threads && a != tid ==> w'.threads[a] == w.threads[a]
  }

  /** A step that changes one thread and, of the sets, only its membership. */
  ghost predicate TouchesOne(w: World, w': World, tid: nat)
  {
    && TouchesOnly(w, w', tid) && tid in w.threads && w'.threads[tid].uid == w.threads[tid].uid
    && (w'.started == w.started || w'.started == w.started + {w.threads[tid].uid})
    && (w'.done == w.done || w'.done == w.done + {w.threads[tid].uid})
  }

  lemma PutTouchesOne(w: World, tid: nat, t: Thread)
    requires tid in w.threads && t.uid == w.threads[tid].uid
    ensures TouchesOne(w, Put(w, tid, t), tid)
  {
    assert Put(w, tid, t).threads.Keys == w.threads.Keys;
  }

  /** The same with the thread's number added to a set, or not. */
  lemma MarkTouchesOne(k: Knobs, w: World, w': World, tid: nat)
    requires TouchesOne(w, w', tid) && w'.started == w.started && w'.done == w.done
    ensures TouchesOne(w, MarkStarted(w', w.threads[tid].uid), tid)
    ensures TouchesOne(w, MarkDone(k, w', w.threads[tid].uid), tid)
  {
  }

  lemma EnterTouchesOne(k: Knobs, w: World, tid: nat, t: Thread)
    requires tid in w.threads && t.uid == w.threads[tid].uid
    ensures TouchesOne(w, EnterTracing(k, w, tid, t), tid) && TouchesOne(w, Finish(k, w, tid, t), tid)
    ensures TouchesOne(w, Put(w, tid, t), tid)
  {
    PutTouchesOne(w, tid, t);
    PutTouchesOne(w, tid, StartSample(k, t));
    MarkTouchesOne(k, w, Put(w, tid, StartSample(k, t)), tid);
    PutTouchesOne(w, tid, t.(phase := Done));
    MarkTouchesOne(k, w, Put(w, tid, t.(phase := Done)), tid);
  }

  lemma BeginTouchesOne(k: Knobs, w: World, tid: nat)
    requires tid in w.threads
    ensures TouchesOne(w, Begin(k, w, tid), tid)
  {
    EnterTouchesOne(k, w.(roiStarted := true), tid, w.threads[tid].(master := true));
  }

  lemma EndTouchesOne(k: Knobs, w: World, tid: nat)
    requires tid in w.threads
    ensures TouchesOne(w, End(k, w, tid), tid)
  {
    EnterTouchesOne(k, w.(roiEnded := true), tid, w.threads[tid]);
  }

  lemma CheckTouchesOne(k: Knobs, w: World, tid: nat)
    requires tid in w.threads
    ensures TouchesOne(w, Check(k, w, tid), tid)
  {
    EnterTouchesOne(k, w, tid, w.threads[tid]);
  }

  lemma SkipTouchesOne(k: Knobs, w: World, tid: nat, phase: Phase, n: nat)
    requires tid in w.threads
    ensures TouchesOne(w, FastForward(k, w, tid, phase, n), tid)
  {
    EnterTouchesOne(k, w, tid, w.threads[tid]);
  }

  lemma CommitTouchesOne(k: Knobs, w: World, tid: nat)
    requires tid in w.threads
    ensures TouchesOne(w, CommitRecord(k, w, tid), tid)
  {
    var t := Recorded(k, w.threads[tid]);
    RecordedSame(k, w.threads[tid]);
    PutTouchesOne(w, tid, t);
    MarkTouchesOne(k, w, Put(w, tid, t), tid);
  }

  lemma RecordedSame(k: Knobs, t: Thread)
    ensures Recorded(k, t).uid == t.uid
  {
  }

  lemma StepTouchesOne(k: Knobs, w: World, c: Callback)
    requires c.tid in w.threads && !c.ThreadStart? && !c.ThreadFini?
    ensures TouchesOne(w, Step(k, w, c), c.tid)
  {
    match c
    case RoiBegin(tid) => BeginTouchesOne(k, w, tid);
    case RoiEnd(tid) => EndTouchesOne(k, w, tid);
    case CheckRoi(tid) => CheckTouchesOne(k, w, tid);
    case FastForwardInitial(tid, n) => SkipTouchesOne(k, w, tid, InitialSkip, n);
    case FastForwardInter(tid, n) => SkipTouchesOne(k, w, tid, InterSkip, n);
    case Commit(tid) => CommitTouchesOne(k, w, tid);
    case RegisterWorker(tid) =>
  }

  lemma StepLive(k: Knobs, w: World, c: Callback)
    ensures Step(k, w, c).threads.Keys <= match c
                                          case ThreadStart(tid) => w.threads.Keys + {tid}
                                          case ThreadFini(tid) => w.threads.Keys - {tid}
                                          case _ => w.threads.Keys
  {
    if !c.ThreadStart? && !c.ThreadFini? && c.tid in w.threads {
      StepTouchesOne(k, w, c);
    }
  }

  /** The invariant holds after every sequence of callbacks PIN can make. */
  lemma {:induction false} RunKeeps(k: Knobs, cs: seq<Callback>)
    requires Startable(k) && PinOrder(cs)
    ensures Inv(k, Run(k, cs)) && Run(k, cs).threads.Keys <= Live(cs)
  {
    if cs == [] {
    } else {
      var before, c := cs[..|cs| - 1], cs[|cs| - 1];
      RunKeeps(k, before);
      StepKeeps(k, Run(k, before), c);
      StepLive(k, Run(k, before), c);
    }
  }

  // ---- main results ----

  /** Every completed sample holds exactly -t records, no thread completes more than its quota, the
      records in an open sample and the counter add up to -t, and no thread indexes past -offsets. */
  lemma SamplesAreExact(k: Knobs, cs: seq<Callback>, tid: nat)
    requires Startable(k) && PinOrder(cs) && tid in Run(k, cs).threads
    ensures var t := Run(k, cs).threads[tid];
            && (forall c :: c in t.completed ==> c == k.traceCount)
            && (Quota(k) > 0 ==> |t.completed| <= Quota(k))
            && (Quota(k) > 0 ==> (t.phase == Done <== |t.completed| == Quota(k)))
            && (t.phase == Tracing ==> 1 <= t.counter && t.counter + t.current == k.traceCount)
            && t.phase != OutOfRange
  {
    RunKeeps(k, cs);
    assert EntryOk(k, Run(k, cs), Run(k, cs).threads[tid]);
  }

  /** With markers, nothing is traced or skipped before the region of interest begins: so the branch that
      sends the master straight to DONE never meets a tracing thread. */
  lemma NothingBeforeRoi(k: Knobs, cs: seq<Callback>, tid: nat)
    requires Startable(k) && PinOrder(cs) && k.useMarkers
    requires !Run(k, cs).roiStarted && tid in Run(k, cs).threads
    ensures Run(k, cs).threads[tid].phase in {WaitingForRoi, Done}
  {
    RunKeeps(k, cs);
    assert EntryOk(k, Run(k, cs), Run(k, cs).threads[tid]);
  }

  lemma {:induction false} SubsetCardinality(a: set<nat>, b: set<nat>)
    requires a <= b && |b| <= |a|
    ensures a == b
  {
    if a != {} {
      var x :| x in a;
      SubsetCardinality(a - {x}, b - {x});
      assert a == (a - {x}) + {x} && b == (b - {x}) + {x};
    } else {
      assert |b| == 0;
    }
  }

  /** What a step may do to the exit flag. */
  ghost predicate ExitRule(k: Knobs, w: World, w': World)
  {
    w'.exiting <==> k.exitOnDone && w'.done != w.done && 0 < |w'.started| <= |w'.done|
  }

  lemma FinishExits(k: Knobs, w: World, tid: nat, t: Thread)
    requires !w.exiting
    ensures ExitRule(k, w, Finish(k, w, tid, t))
  {
  }

  lemma CommitExits(k: Knobs, w: World, tid: nat)
    requires !w.exiting
    ensures ExitRule(k, w, CommitRecord(k, w, tid))
  {
  }

  lemma BeginExits(k: Knobs, w: World, tid: nat)
    requires !w.exiting
    ensures ExitRule(k, w, Begin(k, w, tid))
  {
    if tid in w.threads {
      FinishExits(k, w.(roiStarted := true), tid, w.threads[tid].(master := true));
    }
  }

  lemma EndExits(k: Knobs, w: World, tid: nat)
    requires !w.exiting
    ensures ExitRule(k, w, End(k, w, tid))
  {
  }

  lemma CheckExits(k: Knobs, w: World, tid: nat)
    requires !w.exiting
    ensures ExitRule(k, w, Check(k, w, tid))
  {
  }

  /** The exit flag is set only by a step that makes a thread done, when the counters say so. */
  lemma ExitStep(k: Knobs, w: World, c: Callback)
    requires !w.exiting
    ensures ExitRule(k, w, Step(k, w, c))
  {
    match c
    case RoiBegin(tid) => BeginExits(k, w, tid);
    case RoiEnd(tid) => EndExits(k, w, tid);
    case CheckRoi(tid) => CheckExits(k, w, tid);
    case Commit(tid) => CommitExits(k, w, tid);
    case _ =>
  }

  /** Skip-based runs: the exit flag is set exactly by the step that makes the threads that reached DONE
      the same as the threads that ever entered TRACING. */
  lemma ExitMeansAllDone(k: Knobs, cs: seq<Callback>, c: Callback)
    requires Startable(k) && PinOrder(cs + [c]) && !k.useMarkers && !Run(k, cs).exiting
    ensures var w, w' := Run(k, cs), Run(k, cs + [c]);
            w'.exiting <==> k.exitOnDone && w'.done != w.done && w'.started == w'.done != {}
  {
    RunSnoc(k, cs, c);
    ExitStep(k, Run(k, cs), c);
    RunKeeps(k, cs + [c]);
    var w' := Run(k, cs + [c]);
    if |w'.started| <= |w'.done| {
      SubsetCardinality(w'.done, w'.started);
    }
  }

  /** The callback puts a thread into TRACING for the first time. */
  predicate BeginsTracing(k: Knobs, w: World, c: Callback)
  {
    match c
    case FastForwardInitial(tid, n) =>
      tid in w.threads && w.threads[tid].phase == InitialSkip && w.threads[tid].counter <= n
    case ThreadStart(tid) => !Excluded(k, RememberMain(w, tid).main, tid) && FirstBudget(k) == 0
    case _ => false
  }

  /** Every thread that ever traced is done, and none is done that never traced. */
  predicate AllDone(w: World)
  {
    w.started == w.done
  }

  lemma AllDoneStep(k: Knobs, w: World, c: Callback)
    requires Startable(k) && !k.useMarkers && Inv(k, w) && AllDone(w) && (c.ThreadStart? ==> c.tid !in w.threads)
    ensures AllDone(Step(k, w, c)) <==> !BeginsTracing(k, w, c)
  {
    if c.tid in w.threads {
      assert EntryOk(k, w, w.threads[c.tid]);
    }
    if c.ThreadStart? {
      assert w.next !in w.started;
    }
  }

  /** When all that traced are done, that stays so through the next callback if and only if it does not put a
      thread into TRACING for the first time. */
  lemma AllDoneNext(k: Knobs, cs: seq<Callback>, c: Callback)
    requires Startable(k) && PinOrder(cs + [c]) && !k.useMarkers && AllDone(Run(k, cs))
    ensures AllDone(Run(k, cs + [c])) <==> !BeginsTracing(k, Run(k, cs), c)
  {
    RunSnoc(k, cs, c);
    RunKeeps(k, cs);
    AllDoneStep(k, Run(k, cs), c);
  }

  /** It holds at cs and after each of the callbacks ds. */
  ghost predicate StaysDone(k: Knobs, cs: seq<Callback>, ds: seq<Callback>)
  {
    AllDone(Run(k, cs + ds)) && (ds != [] ==> StaysDone(k, cs, ds[..|ds| - 1]))
  }

  /** None of the callbacks ds, made after cs, puts a thread into TRACING for the first time. */
  ghost predicate NoneBegins(k: Knobs, cs: seq<Callback>, ds: seq<Callback>)
  {
    ds != [] ==>
      var front := ds[..|ds| - 1];
      NoneBegins(k, cs, front) && !BeginsTracing(k, Run(k, cs + front), ds[|ds| - 1])
  }

  lemma {:induction false} StaysDoneLast(k: Knobs, cs: seq<Callback>, ds: seq<Callback>)
    requires StaysDone(k, cs, ds)
    ensures AllDone(Run(k, cs + ds))
  {
  }

  /** The same over any continuation, callback by callback. */
  lemma {:induction false} AllDoneFrom(k: Knobs, cs: seq<Callback>, ds: seq<Callback>)
    requires Startable(k) && PinOrder(cs + ds) && !k.useMarkers && AllDone(Run(k, cs))
    ensures StaysDone(k, cs, ds) <==> NoneBegins(k, cs, ds)
  {
    if ds == [] {
      assert cs + ds == cs;
    } else {
      var front, c := ds[..|ds| - 1], ds[|ds| - 1];
      assert cs + ds == cs + front + [c];
      OrderSnoc(cs + front, c);
      AllDoneFrom(k, cs, front);
      if StaysDone(k, cs, front) {
        StaysDoneLast(k, cs, front);
        AllDoneNext(k, cs + front, c);
      }
    }
  }

  lemma OrderSnoc(cs: seq<Callback>, c: Callback)
    requires PinOrder(cs + [c])
    ensures PinOrder(cs)
  {
    assert (cs + [c])[..|cs|] == cs;
  }

  /** Skip-based runs after the exit flag was set: the threads that reached DONE stay the same as those that
      ever traced if and only if no thread begins tracing before the process is gone. */
  lemma AfterExit(k: Knobs, cs: seq<Callback>, c: Callback, ds: seq<Callback>)
    requires Startable(k) && PinOrder(cs + [c] + ds) && !k.useMarkers
    requires !Run(k, cs).exiting && Run(k, cs + [c]).exiting
    ensures StaysDone(k, cs + [c], ds) <==> NoneBegins(k, cs + [c], ds)
  {
    OrderPrefix(cs + [c] + ds, |cs| + 1);
    assert (cs + [c] + ds)[..|cs| + 1] == cs + [c];
    ExitMeansAllDone(k, cs, c);
    AllDoneFrom(k, cs + [c], ds);
  }

  lemma {:induction false} OrderPrefix(cs: seq<Callback>, n: nat)
    requires PinOrder(cs) && n <= |cs|
    ensures PinOrder(cs[..n])
  {
    if n < |cs| {
      OrderPrefix(cs[..|cs| - 1], n);
      assert cs[..|cs| - 1][..n] == cs[..n];
    } else {
      assert cs[..n] == cs;
    }
  }

  const EXIT_EARLY: Knobs := Knobs(false, 5, 0, 1, 1, true, false, false, false, -1, [])

  /** One step later the two sets can differ: a thread still in its initial skip when the flag is set may
      start tracing before the process exits. */
  lemma ExitCanBeOutrun()
    ensures var cs := [ThreadStart(0), ThreadStart(1), FastForwardInitial(0, 5), Commit(0)];
            && Startable(EXIT_EARLY) && PinOrder(cs) && Run(EXIT_EARLY, cs).exiting
            && Run(EXIT_EARLY, cs).started == Run(EXIT_EARLY, cs).done == {0}
            && Run(EXIT_EARLY, cs + [FastForwardInitial(1, 5)]).started == {0, 1}
            && Run(EXIT_EARLY, cs + [FastForwardInitial(1, 5)]).done == {0}
  {
    var k := EXIT_EARLY;
    var cs := [ThreadStart(0), ThreadStart(1)];
    OneDone();
    RunSnoc(k, cs + [FastForwardInitial(0, 5), Commit(0)], FastForwardInitial(1, 5));
    assert cs + [FastForwardInitial(0, 5), Commit(0)]
           == [ThreadStart(0), ThreadStart(1), FastForwardInitial(0, 5), Commit(0)];
  }

  /** The first has traced its one instruction and is done; the second is still skipping. */
  lemma OneDone()
    ensures var cs := [ThreadStart(0), ThreadStart(1)] + [FastForwardInitial(0, 5), Commit(0)];
            var w := Run(EXIT_EARLY, cs);
            && PinOrder(cs) && w.started == {0} && w.done == {0} && w.exiting && w.threads.Keys == {0, 1}
            && w.threads[1] == Thread(1, InitialSkip, 5, 0, 1, false, false, 0, [])
  {
    var k := EXIT_EARLY;
    var cs, c, d := [ThreadStart(0), ThreadStart(1)], FastForwardInitial(0, 5), Commit(0);
    BothSkipping();
    RunSnoc(k, cs, c);
    RunSnoc(k, cs + [c], d);
    assert cs + [c] + [d] == cs + [c, d];
    SkipTouchesOne(k, Run(k, cs), 0, InitialSkip, 5);
    CommitTouchesOne(k, Run(k, cs + [c]), 0);
  }

  /** Two threads, each with five instructions still to skip. */
  lemma BothSkipping()
    ensures var cs := [ThreadStart(0), ThreadStart(1)];
            var w := Run(EXIT_EARLY, cs);
            && PinOrder(cs) && w.started == {} && w.done == {} && !w.exiting && w.threads.Keys == {0, 1}
            && w.threads[0] == Thread(0, InitialSkip, 5, 0, 1, false, false, 0, [])
            && w.threads[1] == Thread(1, InitialSkip, 5, 0, 1, false, false, 0, [])
  {
    RunSnoc(EXIT_EARLY, [], ThreadStart(0));
    RunSnoc(EXIT_EARLY, [ThreadStart(0)], ThreadStart(1));
    assert [] + [ThreadStart(0)] == [ThreadStart(0)];
    assert [ThreadStart(0)] + [ThreadStart(1)] == [ThreadStart(0), ThreadStart(1)];
  }

  lemma RunSnoc(k: Knobs, cs: seq<Callback>, c: Callback)
    ensures Run(k, cs + [c]) == Step(k, Run(k, cs), c)
    ensures PinOrder(cs + [c]) <==> PinOrder(cs) && (c.ThreadStart? ==> c.tid !in Live(cs))
    ensures Live(cs + [c]) == match c
                              case ThreadStart(tid) => Live(cs) + {tid}
                              case ThreadFini(tid) => Live(cs) - {tid}
                              case _ => Live(cs)
  {
    assert (cs + [c])[..|cs|] == cs;
  }
}
