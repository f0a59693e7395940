/** What a submit does when nothing goes wrong on its side: it ends, and how it ends is decided by the smoke test and
    by what sbatch answered. */
module SubmitProgress {
  import opened Bytes
  import opened SubmitListing
  import opened SubmitProtocol
  import opened SubmitReport
  import opened SubmitRuns

  function Follow(w: World, acts: seq<Action>): World
    decreases |acts|
  {
    if acts == [] then w else Follow(Step(w, acts[0]), acts[1..])
  }

  lemma {:induction false} RunFollows(acts: seq<Action>, more: seq<Action>)
    ensures Run(acts + more) == Follow(Run(acts), more)
    decreases |more|
  {
    if more == [] {
      assert acts + more == acts;
    } else {
      RunSnoc(acts, more[0]);
      assert acts + more == acts + [more[0]] + more[1..];
      RunFollows(acts + [more[0]], more[1..]);
    }
  }

  lemma {:induction false} FollowOn(w: World, a: seq<Action>, b: seq<Action>)
    ensures Follow(w, a + b) == Follow(Follow(w, a), b)
    decreases |a|
  {
    if a == [] {
      assert a + b == b;
    } else {
      assert (a + b)[1..] == a[1..] + b;
      FollowOn(Step(w, a[0]), a[1..], b);
    }
  }

  /** Nobody holds the checkout's lock, and the batch id has neither a ledger nor a run dir. */
  predicate Clear(w: World, id: nat)
    requires id in w.locals
  {
    var s := w.locals[id];
    s.alive && s.checkout !in w.locks && KeyOf(s) !in w.ledgers && s.batch !in w.dirs && id !in w.remotes
  }

  /** The world w with submit id at a later point. */
  function At(w: World, id: nat, phase: Phase, lock: bool, content: Option<Content>, dir: bool, remote: Option<Remote>)
    : World
    requires id in w.locals
  {
    var s := w.locals[id];
    World(w.locals[id := s.(phase := phase)],
          if lock then w.locks[s.checkout := id] else w.locks,
          if content.Some? then w.ledgers[KeyOf(s) := Ledger(id, content.value)] else w.ledgers,
          if dir then w.dirs[s.batch := id] else w.dirs,
          if remote.Some? then w.remotes[id := remote.value] else w.remotes)
  }

  function Go(id: nat): Action
  {
    Advance(id, true, true)
  }

  // ---- the local steps up to the launch ----

  lemma Start(w: World, id: nat)
    requires id in w.locals && w.locals[id].phase == Waiting
    ensures At(w, id, Waiting, false, None, false, None) == w
  {
    assert w.locals[id := w.locals[id]] == w.locals;
  }

  lemma LockStep(w: World, id: nat)
    requires id in w.locals && Clear(w, id)
    ensures Step(At(w, id, Waiting, false, None, false, None), Go(id)) == At(w, id, Claiming, true, None, false, None)
  {
  }

  lemma ClaimedStep(w: World, id: nat)
    requires id in w.locals && Clear(w, id)
    ensures Step(At(w, id, Claiming, true, None, false, None), Go(id))
            == At(w, id, Writing, true, Some(Blank), false, None)
  {
  }

  lemma WriteStep(w: World, id: nat)
    requires id in w.locals && Clear(w, id)
    ensures Step(At(w, id, Writing, true, Some(Blank), false, None), Go(id))
            == At(w, id, MakingDir, true, Some(Placeholder), false, None)
  {
  }

  lemma DirStep(w: World, id: nat)
    requires id in w.locals && Clear(w, id)
    ensures Step(At(w, id, MakingDir, true, Some(Placeholder), false, None), Go(id))
            == At(w, id, Preparing, true, Some(Placeholder), true, None)
  {
  }

  lemma PrepareStep(w: World, id: nat)
    requires id in w.locals && Clear(w, id)
    ensures Step(At(w, id, Preparing, true, Some(Placeholder), true, None), Go(id))
            == At(w, id, Launching, true, Some(Placeholder), true, None)
  {
  }

  lemma LaunchedStep(w: World, id: nat)
    requires id in w.locals && Clear(w, id)
    ensures Step(At(w, id, Launching, true, Some(Placeholder), true, None), Go(id))
            == At(w, id, Awaiting, true, Some(Placeholder), true, Some(Remote(w.locals[id].tags, [], Smoking)))
  {
  }

  // ---- create_jobfile ----

  function OnCluster(id: nat, es: seq<RemoteEvent>): seq<Action>
  {
    if es == [] then [] else OnCluster(id, es[..|es| - 1]) + [Action.OnCluster(id, es[|es| - 1])]
  }

  function Worked(r: Remote, es: seq<RemoteEvent>): Remote
  {
    if es == [] then r else RemoteStep(Worked(r, es[..|es| - 1]), es[|es| - 1])
  }

  /** The smoke test's exit code and, if that is 0, what sbatch answers for each unit. */
  function Events(smokeRc: int, results: seq<Sbatch>): seq<RemoteEvent>
  {
    if results == [] then [] + [Smoke(smokeRc)]
    else Events(smokeRc, results[..|results| - 1]) + [Submit(results[|results| - 1])]
  }

  /** It reports a failed smoke test, or everything that sbatch answered. */
  lemma {:induction false} WorkReported(tags: seq<string>, smokeRc: int, results: seq<Sbatch>)
    requires |results| <= |tags|
    ensures var r := Worked(Remote(tags, [], Smoking), Events(smokeRc, results));
            r == if smokeRc != 0 then Remote(tags, [], Finished(Report(SmokeFailed, [], [])))
                 else if |results| == |tags| then Remote(tags, results, Finished(Launched(0, tags, results)))
                 else Remote(tags, results, Submitting)
  {
    var first := Remote(tags, [], Smoking);
    if results == [] {
      WorkedSnoc(first, [], Smoke(smokeRc));
    } else {
      var n := |results| - 1;
      WorkReported(tags, smokeRc, results[..n]);
      WorkedSnoc(first, Events(smokeRc, results[..n]), Submit(results[n]));
      assert results[..n] + [results[n]] == results;
    }
  }

  lemma WorkedSnoc(r: Remote, es: seq<RemoteEvent>, e: RemoteEvent)
    ensures Worked(r, es + [e]) == RemoteStep(Worked(r, es), e)
  {
    assert (es + [e])[..|es|] == es;
  }

  lemma ClusterStep(w: World, id: nat, r: Remote, e: RemoteEvent)
    requires id in w.locals
    ensures Step(At(w, id, Awaiting, true, Some(Placeholder), true, Some(r)), Action.OnCluster(id, e))
            == At(w, id, Awaiting, true, Some(Placeholder), true, Some(RemoteStep(r, e)))
  {
    assert w.remotes[id := r][id := RemoteStep(r, e)] == w.remotes[id := RemoteStep(r, e)];
  }

  lemma FollowOne(w: World, acts: seq<Action>, a: Action)
    ensures Follow(w, acts + [a]) == Step(Follow(w, acts), a)
  {
    FollowOn(w, acts, [a]);
    FollowSingle(Follow(w, acts), a);
  }

  lemma FollowSingle(w: World, a: Action)
    ensures Follow(w, [a]) == Step(w, a)
  {
    assert [a][1..] == [];
  }

  lemma {:induction false} ClusterWorks(w: World, id: nat, r: Remote, es: seq<RemoteEvent>)
    requires id in w.locals
    ensures Follow(At(w, id, Awaiting, true, Some(Placeholder), true, Some(r)), OnCluster(id, es))
            == At(w, id, Awaiting, true, Some(Placeholder), true, Some(Worked(r, es)))
  {
    if es == [] {
    } else {
      var front, e := es[..|es| - 1], es[|es| - 1];
      ClusterWorks(w, id, r, front);
      var start := At(w, id, Awaiting, true, Some(Placeholder), true, Some(r));
      FollowOne(start, OnCluster(id, front), Action.OnCluster(id, e));
      ClusterStep(w, id, Worked(r, front), e);
    }
  }

  // ---- the local steps after it ----

  lemma Unlocked(w: World, id: nat, phase: Phase, content: Option<Content>, r: Remote)
    requires id in w.locals && Clear(w, id)
    ensures var held := At(w, id, Awaiting, true, content, true, Some(r));
            Unlock(Goto(held, id, phase), id) == At(w, id, phase, false, content, true, Some(r))
  {
    var s := w.locals[id];
    assert w.locks[s.checkout := id] - {s.checkout} == w.locks;
    assert w.locals[id := s.(phase := Awaiting)][id := s.(phase := phase)] == w.locals[id := s.(phase := phase)];
  }

  lemma Rewritten(w: World, id: nat, before: Phase, phase: Phase, content: Content, r: Remote)
    requires id in w.locals
    ensures var blank := At(w, id, before, false, Some(Blank), true, Some(r));
            SetLedger(Goto(blank, id, phase), id, content) == At(w, id, phase, false, Some(content), true, Some(r))
  {
    var s := w.locals[id];
    assert w.locals[id := s.(phase := before)][id := s.(phase := phase)] == w.locals[id := s.(phase := phase)];
    assert w.ledgers[KeyOf(s) := Ledger(id, Blank)][KeyOf(s) := Ledger(id, content)]
           == w.ledgers[KeyOf(s) := Ledger(id, content)];
  }

  lemma ReportStep(w: World, id: nat, r: Remote)
    requires id in w.locals && Clear(w, id) && r.phase.Finished?
    ensures Step(At(w, id, Awaiting, true, Some(Placeholder), true, Some(r)), Go(id))
            == At(w, id, Deciding(Some(r.phase.report)), false, Some(Placeholder), true, Some(r))
  {
    Unlocked(w, id, Deciding(Some(r.phase.report)), Some(Placeholder), r);
  }

  lemma DeleteStep(w: World, id: nat, r: Remote, report: Report)
    requires id in w.locals && Clear(w, id) && Decide(Some(report)) == Delete
    ensures Step(At(w, id, Deciding(Some(report)), false, Some(Placeholder), true, Some(r)), Go(id))
            == At(w, id, Dropped, false, None, true, Some(r))
  {
  }

  lemma RecordStep(w: World, id: nat, r: Remote, report: Report)
    requires id in w.locals && Clear(w, id) && Decide(Some(report)).Record?
    ensures var d := Decide(Some(report));
            Step(At(w, id, Deciding(Some(report)), false, Some(Placeholder), true, Some(r)), Go(id))
            == At(w, id, Rewriting(d.jobs, d.partial), false, Some(Blank), true, Some(r))
  {
    Rewound(w, id, report, r);
  }

  lemma Rewound(w: World, id: nat, report: Report, r: Remote)
    requires id in w.locals
    ensures var held := At(w, id, Deciding(Some(report)), false, Some(Placeholder), true, Some(r));
            var d := Decide(Some(report));
            d.Record? ==> SetLedger(Goto(held, id, Rewriting(d.jobs, d.partial)), id, Blank)
                          == At(w, id, Rewriting(d.jobs, d.partial), false, Some(Blank), true, Some(r))
  {
    var s := w.locals[id];
    assert w.ledgers[KeyOf(s) := Ledger(id, Placeholder)][KeyOf(s) := Ledger(id, Blank)]
           == w.ledgers[KeyOf(s) := Ledger(id, Blank)];
  }

  lemma RewriteStep(w: World, id: nat, r: Remote, jobs: seq<JobRow>, partial: bool)
    requires id in w.locals && Clear(w, id)
    ensures Step(At(w, id, Rewriting(jobs, partial), false, Some(Blank), true, Some(r)), Go(id))
            == At(w, id, Logged, false, Some(Recorded(jobs, partial)), true, Some(r))
  {
    Rewritten(w, id, Rewriting(jobs, partial), Logged, Recorded(jobs, partial), r);
  }

  lemma DroppedStep(w: World, id: nat, r: Remote)
    requires id in w.locals && Clear(w, id)
    ensures var end := At(w, id, Dropped, false, None, true, Some(r));
            Step(end, Go(id)) == end
  {
  }

  // ---- a whole submit ----

  function Goes(id: nat, n: nat): seq<Action>
  {
    if n == 0 then [] else Goes(id, n - 1) + [Go(id)]
  }

  lemma FollowGo(w: World, id: nat, n: nat)
    requires n > 0
    ensures Follow(w, Goes(id, n)) == Step(Follow(w, Goes(id, n - 1)), Go(id))
  {
    FollowOne(w, Goes(id, n - 1), Go(id));
  }

  lemma Claims(w: World, id: nat)
    requires id in w.locals && Clear(w, id) && w.locals[id].phase == Waiting
    ensures Follow(w, Goes(id, 3)) == At(w, id, MakingDir, true, Some(Placeholder), false, None)
  {
    Start(w, id);
    FollowGo(w, id, 1);
    LockStep(w, id);
    FollowGo(w, id, 2);
    ClaimedStep(w, id);
    FollowGo(w, id, 3);
    WriteStep(w, id);
  }

  lemma Launches(w: World, id: nat)
    requires id in w.locals && Clear(w, id) && w.locals[id].phase == Waiting
    ensures Follow(w, Goes(id, 6))
            == At(w, id, Awaiting, true, Some(Placeholder), true, Some(Remote(w.locals[id].tags, [], Smoking)))
  {
    Claims(w, id);
    FollowGo(w, id, 4);
    DirStep(w, id);
    FollowGo(w, id, 5);
    PrepareStep(w, id);
    FollowGo(w, id, 6);
    LaunchedStep(w, id);
  }

  lemma EndsLogged(w: World, id: nat, r: Remote)
    requires id in w.locals && Clear(w, id) && r.phase.Finished? && Decide(Some(r.phase.report)).Record?
    ensures var d := Decide(Some(r.phase.report));
            Follow(At(w, id, Deciding(Some(r.phase.report)), false, Some(Placeholder), true, Some(r)), Goes(id, 2))
            == At(w, id, Logged, false, Some(Recorded(d.jobs, d.partial)), true, Some(r))
  {
    var start := At(w, id, Deciding(Some(r.phase.report)), false, Some(Placeholder), true, Some(r));
    var d := Decide(Some(r.phase.report));
    FollowGo(start, id, 1);
    RecordStep(w, id, r, r.phase.report);
    FollowGo(start, id, 2);
    RewriteStep(w, id, r, d.jobs, d.partial);
  }

  lemma EndsDropped(w: World, id: nat, r: Remote)
    requires id in w.locals && Clear(w, id) && r.phase.Finished? && Decide(Some(r.phase.report)) == Delete
    ensures Follow(At(w, id, Deciding(Some(r.phase.report)), false, Some(Placeholder), true, Some(r)), Goes(id, 2))
            == At(w, id, Dropped, false, None, true, Some(r))
  {
    var start := At(w, id, Deciding(Some(r.phase.report)), false, Some(Placeholder), true, Some(r));
    FollowGo(start, id, 1);
    DeleteStep(w, id, r, r.phase.report);
    FollowGo(start, id, 2);
    DroppedStep(w, id, r);
  }

  /** The end: recorded or dropped, as the report says. */
  lemma Ends(w: World, id: nat, r: Remote)
    requires id in w.locals && Clear(w, id) && r.phase.Finished?
    ensures var d := Decide(Some(r.phase.report));
            Follow(At(w, id, Awaiting, true, Some(Placeholder), true, Some(r)), [Go(id)] + Goes(id, 2))
            == if d.Record? then At(w, id, Logged, false, Some(Recorded(d.jobs, d.partial)), true, Some(r))
               else At(w, id, Dropped, false, None, true, Some(r))
  {
    var start := At(w, id, Awaiting, true, Some(Placeholder), true, Some(r));
    FollowOn(start, [Go(id)], Goes(id, 2));
    FollowSingle(start, Go(id));
    ReportStep(w, id, r);
    if Decide(Some(r.phase.report)).Record? {
      EndsLogged(w, id, r);
    } else {
      EndsDropped(w, id, r);
    }
  }

  /** Six steps to the launch, what happens on the cluster, and three steps to the end. */
  function Undisturbed(id: nat, smokeRc: int, results: seq<Sbatch>): seq<Action>
  {
    Goes(id, 6) + OnCluster(id, Events(smokeRc, results)) + ([Go(id)] + Goes(id, 2))
  }

  lemma UndisturbedEnds(w: World, id: nat, smokeRc: int, results: seq<Sbatch>)
    requires id in w.locals && Clear(w, id) && w.locals[id].phase == Waiting && |results| == |w.locals[id].tags|
    ensures var r := Worked(Remote(w.locals[id].tags, [], Smoking), Events(smokeRc, results));
            r.phase.Finished? &&
            var d := Decide(Some(r.phase.report));
            Follow(w, Undisturbed(id, smokeRc, results))
            == if d.Record? then At(w, id, Logged, false, Some(Recorded(d.jobs, d.partial)), true, Some(r))
               else At(w, id, Dropped, false, None, true, Some(r))
  {
    var es, first := Events(smokeRc, results), Remote(w.locals[id].tags, [], Smoking);
    WorkReported(w.locals[id].tags, smokeRc, results);
    FollowOn(w, Goes(id, 6) + OnCluster(id, es), [Go(id)] + Goes(id, 2));
    FollowOn(w, Goes(id, 6), OnCluster(id, es));
    Launches(w, id);
    ClusterWorks(w, id, first, es);
    Ends(w, id, Worked(first, es));
  }

  lemma Decided(tags: seq<string>, smokeRc: int, results: seq<Sbatch>)
    requires |tags| == |results|
    ensures var d := Decide(Some(Launched(smokeRc, tags, results)));
            && (d == Delete <==> smokeRc != 0
                                 || ((exists b :: b in results && Refusal(b)) && !exists b :: b in results && Named(b)))
            && (d != Delete ==> d.Record? && (d.partial <==> exists b :: b in results && Refusal(b))
                                && ListsJobs(tags, results, d.jobs))
  {
    DeletesExactly(false, smokeRc, tags, results);
    JobsListed(tags, results);
    FailuresCount(tags, results);
    CountNone(results, Refusal);
  }

  /** From any state of any run, a waiting submit whose checkout is not locked and whose batch id is new, undisturbed
      from there on, ends with the lock free again and a run dir of its own. If the smoke test passed and sbatch
      refused nothing, or printed some id, the ledger lists the accepted jobs by unit, in order, marked partial exactly
      if something was refused; otherwise there is no ledger. Nothing of any other submit is touched. */
  lemma SubmitEnds(acts: seq<Action>, id: nat, smokeRc: int, results: seq<Sbatch>)
    requires var w := Run(acts);
             && id in w.locals && w.locals[id].phase == Waiting && w.locals[id].alive
             && w.locals[id].checkout !in w.locks && KeyOf(w.locals[id]) !in w.ledgers && w.locals[id].batch !in w.dirs
             && |results| == |w.locals[id].tags|
    ensures var w, w' := Run(acts), Run(acts + Undisturbed(id, smokeRc, results));
            var s := w.locals[id];
            var refused := exists b :: b in results && Refusal(b);
            var named := exists b :: b in results && Named(b);
            && w'.locks == w.locks && w'.dirs == w.dirs[s.batch := id]
            && if smokeRc == 0 && (refused ==> named)
               then w'.locals == w.locals[id := s.(phase := Logged)]
                    && KeyOf(s) in w'.ledgers && w'.ledgers == w.ledgers[KeyOf(s) := w'.ledgers[KeyOf(s)]]
                    && w'.ledgers[KeyOf(s)].owner == id
                    && var c := w'.ledgers[KeyOf(s)].content;
                       c.Recorded? && c.partial == refused && ListsJobs(s.tags, results, c.jobs)
               else w'.locals == w.locals[id := s.(phase := Dropped)] && w'.ledgers == w.ledgers
  {
    var w := Run(acts);
    RunKeeps(acts);
    assert LocalOk(w, id);
    RunFollows(acts, Undisturbed(id, smokeRc, results));
    UndisturbedEnds(w, id, smokeRc, results);
    WorkReported(w.locals[id].tags, smokeRc, results);
    Decided(w.locals[id].tags, smokeRc, results);
  }
}
