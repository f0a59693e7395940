/** What every run of the submit protocol keeps, with a crash allowed after any step. */
module SubmitRuns {
  import opened Bytes
  import opened SubmitProtocol
  import opened SubmitReport

  // ---- one submit moves ----

  ghost predicate SameAt<K, V>(m: map<K, V>, m': map<K, V>, k: K)
  {
    if k in m then k in m' && m'[k] == m[k] else k !in m'
  }

  predicate OwnLock(w: World, id: nat, c: nat)
  {
    c in w.locks ==> w.locks[c] == id
  }

  predicate OwnLedger(w: World, id: nat, k: Key)
  {
    k in w.ledgers ==> w.ledgers[k].owner == id
  }

  /** Only submit id changes; and of the locks, ledgers and run dirs only its own, which before and after it
      holds or nobody does. */
  ghost predicate OnlyTouches(w: World, w': World, id: nat)
    requires id in w.locals
  {
    var s := w.locals[id];
    && (forall i :: SameAt(w.locals, w'.locals, i) || i == id)
    && (forall r :: SameAt(w.remotes, w'.remotes, r) || r == id)
    && (forall c :: SameAt(w.locks, w'.locks, c) || (c == s.checkout && OwnLock(w, id, c) && OwnLock(w', id, c)))
    && (forall k :: SameAt(w.ledgers, w'.ledgers, k) || (k == KeyOf(s) && OwnLedger(w, id, k) && OwnLedger(w', id, k)))
    && (forall b :: SameAt(w.dirs, w'.dirs, b) || (b == s.batch && b !in w.dirs && w'.dirs[b := id] == w'.dirs))
    && id in w'.locals && w'.locals[id].checkout == s.checkout && w'.locals[id].batch == s.batch
  }

  /** What submit id itself must satisfy afterwards. */
  ghost predicate SelfOk(w: World, id: nat)
    requires id in w.locals
  {
    var s := w.locals[id];
    && LocalOk(w, id)
    && (s.checkout in w.locks && w.locks[s.checkout] == id ==> s.alive && Locking(s.phase))
    && (KeyOf(s) in w.ledgers && w.ledgers[KeyOf(s)].owner == id ==> Owns(s.phase))
  }

  /** Whatever another submit holds is not touched. */
  lemma OthersHold(w: World, w': World, id: nat, other: nat)
    requires id in w.locals && OnlyTouches(w, w', id) && other in w.locals && other != id
    ensures SameAt(w.locals, w'.locals, other) && SameAt(w.remotes, w'.remotes, other)
    ensures var o := w.locals[other];
            && (o.checkout in w.locks && w.locks[o.checkout] == other ==> SameAt(w.locks, w'.locks, o.checkout))
            && (KeyOf(o) in w.ledgers && w.ledgers[KeyOf(o)].owner == other ==>
                  SameAt(w.ledgers, w'.ledgers, KeyOf(o)))
            && (o.batch in w.dirs ==> SameAt(w.dirs, w'.dirs, o.batch))
  {
    var o := w.locals[other];
    assert SameAt(w.locals, w'.locals, other) || other == id;
    assert SameAt(w.remotes, w'.remotes, other) || other == id;
    assert SameAt(w.locks, w'.locks, o.checkout) || OwnLock(w, id, o.checkout);
    assert SameAt(w.ledgers, w'.ledgers, KeyOf(o)) || OwnLedger(w, id, KeyOf(o));
    assert SameAt(w.dirs, w'.dirs, o.batch) || o.batch !in w.dirs;
  }

  lemma OthersOk(w: World, w': World, id: nat, other: nat)
    requires id in w.locals && OnlyTouches(w, w', id) && other in w.locals && other != id && LocalOk(w, other)
    ensures SameAt(w.locals, w'.locals, other) && LocalOk(w', other)
  {
    OthersHold(w, w', id, other);
  }

  lemma LocksOk(w: World, w': World, id: nat, c: nat)
    requires Inv(w) && id in w.locals && OnlyTouches(w, w', id) && SelfOk(w', id) && c in w'.locks
    ensures LockOk(w', c)
  {
    if SameAt(w.locks, w'.locks, c) {
      assert LockOk(w, c);
      assert SameAt(w.locals, w'.locals, w.locks[c]) || w.locks[c] == id;
    }
  }

  lemma LedgersOk(w: World, w': World, id: nat, k: Key)
    requires Inv(w) && id in w.locals && OnlyTouches(w, w', id) && SelfOk(w', id) && k in w'.ledgers
    ensures LedgerOk(w', k)
  {
    if SameAt(w.ledgers, w'.ledgers, k) {
      assert LedgerOk(w, k);
      assert SameAt(w.locals, w'.locals, w.ledgers[k].owner) || w.ledgers[k].owner == id;
    }
  }

  lemma MoveKeeps(w: World, w': World, id: nat)
    requires Inv(w) && id in w.locals && OnlyTouches(w, w', id) && SelfOk(w', id)
    ensures Inv(w')
  {
    forall i | i in w'.locals ensures LocalOk(w', i) {
      assert SameAt(w.locals, w'.locals, i) || i == id;
      if i != id {
        OthersOk(w, w', id, i);
      }
    }
    forall c | c in w'.locks ensures LockOk(w', c) {
      LocksOk(w, w', id, c);
    }
    forall k | k in w'.ledgers ensures LedgerOk(w', k) {
      LedgersOk(w, w', id, k);
    }
    forall r | r in w'.remotes ensures r in w'.locals {
      assert SameAt(w.remotes, w'.remotes, r) || r == id;
      assert SameAt(w.locals, w'.locals, r) || r == id;
    }
    forall b | b in w'.dirs ensures w'.dirs[b] in w'.locals {
      assert SameAt(w.dirs, w'.dirs, b) || w'.dirs[b] == id;
      assert SameAt(w.locals, w'.locals, w'.dirs[b]) || w'.dirs[b] == id;
    }
  }

  // ---- the steps ----

  /** What Inv says about submit id and the things it may hold. */
  lemma Around(w: World, id: nat)
    requires Inv(w) && id in w.locals
    ensures LocalOk(w, id) && SelfOk(w, id)
  {
    var s := w.locals[id];
    assert LocalOk(w, id);
    assert KeyOf(s) in w.ledgers ==> LedgerOk(w, KeyOf(s));
    assert s.checkout in w.locks ==> LockOk(w, s.checkout);
  }

  lemma TouchGoto(w: World, id: nat, p: Phase)
    requires id in w.locals
    ensures OnlyTouches(w, Goto(w, id, p), id)
  {
  }

  lemma TouchUnlock(w: World, w': World, id: nat)
    requires id in w.locals && OnlyTouches(w, w', id) && OwnLock(w, id, w.locals[id].checkout)
    ensures OnlyTouches(w, Unlock(w', id), id)
  {
    var c := w.locals[id].checkout;
    forall d ensures SameAt(w.locks, w'.locks - {c}, d) || (d == c && OwnLock(w, id, d)) {
      assert SameAt(w.locks, w'.locks, d) || d == c;
    }
  }

  lemma TouchSet(w: World, w': World, id: nat, content: Content)
    requires id in w.locals && OnlyTouches(w, w', id) && OwnLedger(w, id, KeyOf(w.locals[id]))
    ensures OnlyTouches(w, SetLedger(w', id, content), id)
  {
    var k := KeyOf(w.locals[id]);
    forall j ensures SameAt(w.ledgers, SetLedger(w', id, content).ledgers, j) || (j == k && OwnLedger(w, id, j)) {
      assert SameAt(w.ledgers, w'.ledgers, j) || j == k;
    }
  }

  lemma TouchRemove(w: World, w': World, id: nat)
    requires id in w.locals && OnlyTouches(w, w', id) && OwnLedger(w, id, KeyOf(w.locals[id]))
    ensures OnlyTouches(w, RemoveLedger(w', id), id)
  {
    var k := KeyOf(w.locals[id]);
    forall j ensures SameAt(w.ledgers, w'.ledgers - {k}, j) || (j == k && OwnLedger(w, id, j)) {
      assert SameAt(w.ledgers, w'.ledgers, j) || j == k;
    }
  }

  lemma LockSelf(w: World, id: nat)
    requires id in w.locals && SelfOk(w, id) && w.locals[id].alive && w.locals[id].phase == Waiting
    requires w.locals[id].checkout !in w.locks
    ensures SelfOk(Goto(w, id, Claiming).(locks := w.locks[w.locals[id].checkout := id]), id)
  {
  }

  lemma LockTouch(w: World, id: nat)
    requires id in w.locals && w.locals[id].checkout !in w.locks
    ensures OnlyTouches(w, Goto(w, id, Claiming).(locks := w.locks[w.locals[id].checkout := id]), id)
  {
    TouchGoto(w, id, Claiming);
  }

  lemma LockKeeps(w: World, id: nat)
    requires Inv(w) && id in w.locals && w.locals[id].alive && w.locals[id].phase == Waiting
    requires w.locals[id].checkout !in w.locks
    ensures Inv(Goto(w, id, Claiming).(locks := w.locks[w.locals[id].checkout := id]))
  {
    Around(w, id);
    LockSelf(w, id);
    LockTouch(w, id);
    MoveKeeps(w, Goto(w, id, Claiming).(locks := w.locks[w.locals[id].checkout := id]), id);
  }

  lemma ClaimTakenSelf(w: World, id: nat)
    requires id in w.locals && SelfOk(w, id) && w.locals[id].alive && w.locals[id].phase == Claiming
    requires KeyOf(w.locals[id]) in w.ledgers
    ensures SelfOk(ClaimStep(w, id), id)
  {
  }

  lemma ClaimTakenKeeps(w: World, id: nat)
    requires Inv(w) && id in w.locals && w.locals[id].alive && w.locals[id].phase == Claiming
    requires KeyOf(w.locals[id]) in w.ledgers
    ensures Inv(ClaimStep(w, id))
  {
    Around(w, id);
    ClaimTakenSelf(w, id);
    TouchGoto(w, id, Dropped);
    TouchUnlock(w, Goto(w, id, Dropped), id);
    MoveKeeps(w, ClaimStep(w, id), id);
  }

  lemma ClaimWonSelf(w: World, id: nat)
    requires id in w.locals && SelfOk(w, id) && w.locals[id].alive && w.locals[id].phase == Claiming
    requires KeyOf(w.locals[id]) !in w.ledgers
    ensures SelfOk(ClaimStep(w, id), id)
  {
  }

  lemma ClaimWonKeeps(w: World, id: nat)
    requires Inv(w) && id in w.locals && w.locals[id].alive && w.locals[id].phase == Claiming
    requires KeyOf(w.locals[id]) !in w.ledgers
    ensures Inv(ClaimStep(w, id))
  {
    Around(w, id);
    ClaimWonSelf(w, id);
    TouchGoto(w, id, Writing);
    TouchSet(w, Goto(w, id, Writing), id, Blank);
    MoveKeeps(w, ClaimStep(w, id), id);
  }

  lemma WriteSelf(w: World, id: nat)
    requires id in w.locals && SelfOk(w, id) && w.locals[id].alive && w.locals[id].phase == Writing
    ensures SelfOk(SetLedger(Goto(w, id, MakingDir), id, Placeholder), id)
  {
  }

  lemma WriteKeeps(w: World, id: nat)
    requires Inv(w) && id in w.locals && w.locals[id].alive && w.locals[id].phase == Writing
    ensures Inv(SetLedger(Goto(w, id, MakingDir), id, Placeholder))
  {
    Around(w, id);
    WriteSelf(w, id);
    TouchGoto(w, id, MakingDir);
    TouchSet(w, Goto(w, id, MakingDir), id, Placeholder);
    MoveKeeps(w, SetLedger(Goto(w, id, MakingDir), id, Placeholder), id);
  }

  lemma MkDirKeeps(w: World, id: nat, done: bool, ok: bool)
    requires Inv(w) && id in w.locals && w.locals[id].alive && w.locals[id].phase == MakingDir
    ensures Inv(MkDirStep(w, id, done, ok))
  {
    Around(w, id);
    MkDirSelf(w, id, done, ok);
    MkDirTouch(w, id, done, ok);
    MoveKeeps(w, MkDirStep(w, id, done, ok), id);
  }

  lemma MkDirTouch(w: World, id: nat, done: bool, ok: bool)
    requires id in w.locals
    ensures OnlyTouches(w, MkDirStep(w, id, done, ok), id)
  {
    TouchGoto(w, id, Failing);
    TouchGoto(w, id, Preparing);
  }

  lemma MkDirSelf(w: World, id: nat, done: bool, ok: bool)
    requires id in w.locals && SelfOk(w, id) && w.locals[id].alive && w.locals[id].phase == MakingDir
    ensures SelfOk(MkDirStep(w, id, done, ok), id)
  {
  }

  lemma PrepareSelf(w: World, id: nat, p: Phase)
    requires id in w.locals && SelfOk(w, id) && w.locals[id].alive && w.locals[id].phase == Preparing
    requires p == Launching || p == Failing
    ensures SelfOk(Goto(w, id, p), id)
  {
  }

  lemma PrepareKeeps(w: World, id: nat, ok: bool)
    requires Inv(w) && id in w.locals && w.locals[id].alive && w.locals[id].phase == Preparing
    ensures Inv(Goto(w, id, if ok then Launching else Failing))
  {
    Around(w, id);
    PrepareSelf(w, id, if ok then Launching else Failing);
    TouchGoto(w, id, if ok then Launching else Failing);
    MoveKeeps(w, Goto(w, id, if ok then Launching else Failing), id);
  }

  lemma LaunchKeeps(w: World, id: nat, done: bool)
    requires Inv(w) && id in w.locals && w.locals[id].alive && w.locals[id].phase == Launching
    ensures Inv(LaunchStep(w, id, done))
  {
    Around(w, id);
    LaunchTouch(w, id, done);
    LaunchSelf(w, id, done);
    MoveKeeps(w, LaunchStep(w, id, done), id);
  }

  lemma LaunchTouch(w: World, id: nat, done: bool)
    requires id in w.locals
    ensures OnlyTouches(w, LaunchStep(w, id, done), id)
  {
    TouchGoto(w, id, Awaiting);
  }

  lemma LaunchSelf(w: World, id: nat, done: bool)
    requires id in w.locals && SelfOk(w, id) && w.locals[id].alive && w.locals[id].phase == Launching
    ensures SelfOk(LaunchStep(w, id, done), id)
  {
  }

  lemma AwaitSelf(w: World, id: nat, report: Option<Report>)
    requires id in w.locals && SelfOk(w, id) && w.locals[id].alive && w.locals[id].phase == Awaiting
    requires report.Some? ==> id in w.remotes && w.remotes[id].phase == Finished(report.value)
    ensures SelfOk(Unlock(Goto(w, id, Deciding(report)), id), id)
  {
  }

  lemma AwaitKeeps(w: World, id: nat, report: Option<Report>)
    requires Inv(w) && id in w.locals && w.locals[id].alive && w.locals[id].phase == Awaiting
    requires report.Some? ==> id in w.remotes && w.remotes[id].phase == Finished(report.value)
    ensures Inv(Unlock(Goto(w, id, Deciding(report)), id))
  {
    Around(w, id);
    AwaitSelf(w, id, report);
    TouchGoto(w, id, Deciding(report));
    TouchUnlock(w, Goto(w, id, Deciding(report)), id);
    MoveKeeps(w, Unlock(Goto(w, id, Deciding(report)), id), id);
  }

  lemma FailingSelf(w: World, id: nat)
    requires id in w.locals && SelfOk(w, id) && w.locals[id].alive && w.locals[id].phase == Failing
    ensures SelfOk(Unlock(RemoveLedger(Goto(w, id, Dropped), id), id), id)
  {
  }

  lemma FailingKeeps(w: World, id: nat)
    requires Inv(w) && id in w.locals && w.locals[id].alive && w.locals[id].phase == Failing
    ensures Inv(Unlock(RemoveLedger(Goto(w, id, Dropped), id), id))
  {
    Around(w, id);
    FailingSelf(w, id);
    TouchGoto(w, id, Dropped);
    TouchRemove(w, Goto(w, id, Dropped), id);
    TouchUnlock(w, RemoveLedger(Goto(w, id, Dropped), id), id);
    MoveKeeps(w, Unlock(RemoveLedger(Goto(w, id, Dropped), id), id), id);
  }

  lemma KeepSelf(w: World, id: nat)
    requires id in w.locals && SelfOk(w, id) && w.locals[id].alive && w.locals[id].phase.Deciding?
    ensures SelfOk(Goto(w, id, Kept), id)
  {
  }

  lemma KeepKeeps(w: World, id: nat)
    requires Inv(w) && id in w.locals && w.locals[id].alive && w.locals[id].phase.Deciding?
    ensures Inv(Goto(w, id, Kept))
  {
    Around(w, id);
    KeepSelf(w, id);
    TouchGoto(w, id, Kept);
    MoveKeeps(w, Goto(w, id, Kept), id);
  }

  lemma DeleteSelf(w: World, id: nat)
    requires id in w.locals && SelfOk(w, id) && w.locals[id].alive
    requires w.locals[id].phase.Deciding? && Decide(w.locals[id].phase.report) == Delete
    ensures SelfOk(RemoveLedger(Goto(w, id, Dropped), id), id)
  {
  }

  lemma DeleteKeeps(w: World, id: nat)
    requires Inv(w) && id in w.locals && w.locals[id].alive
    requires w.locals[id].phase.Deciding? && Decide(w.locals[id].phase.report) == Delete
    ensures Inv(RemoveLedger(Goto(w, id, Dropped), id))
  {
    Around(w, id);
    DeleteSelf(w, id);
    TouchGoto(w, id, Dropped);
    TouchRemove(w, Goto(w, id, Dropped), id);
    MoveKeeps(w, RemoveLedger(Goto(w, id, Dropped), id), id);
  }

  lemma RecordSelf(w: World, id: nat, jobs: seq<JobRow>, partial: bool)
    requires id in w.locals && SelfOk(w, id) && w.locals[id].alive
    requires w.locals[id].phase.Deciding? && Decide(w.locals[id].phase.report) == Record(jobs, partial)
    ensures SelfOk(SetLedger(Goto(w, id, Rewriting(jobs, partial)), id, Blank), id)
  {
  }

  lemma RecordKeeps(w: World, id: nat, jobs: seq<JobRow>, partial: bool)
    requires Inv(w) && id in w.locals && w.locals[id].alive
    requires w.locals[id].phase.Deciding? && Decide(w.locals[id].phase.report) == Record(jobs, partial)
    ensures Inv(SetLedger(Goto(w, id, Rewriting(jobs, partial)), id, Blank))
  {
    Around(w, id);
    RecordSelf(w, id, jobs, partial);
    TouchGoto(w, id, Rewriting(jobs, partial));
    TouchSet(w, Goto(w, id, Rewriting(jobs, partial)), id, Blank);
    MoveKeeps(w, SetLedger(Goto(w, id, Rewriting(jobs, partial)), id, Blank), id);
  }

  lemma RewriteSelf(w: World, id: nat, jobs: seq<JobRow>, partial: bool)
    requires id in w.locals && SelfOk(w, id) && w.locals[id].alive && w.locals[id].phase == Rewriting(jobs, partial)
    ensures SelfOk(SetLedger(Goto(w, id, Logged), id, Recorded(jobs, partial)), id)
  {
  }

  lemma RewriteKeeps(w: World, id: nat, jobs: seq<JobRow>, partial: bool)
    requires Inv(w) && id in w.locals && w.locals[id].alive && w.locals[id].phase == Rewriting(jobs, partial)
    ensures Inv(SetLedger(Goto(w, id, Logged), id, Recorded(jobs, partial)))
  {
    Around(w, id);
    RewriteSelf(w, id, jobs, partial);
    TouchGoto(w, id, Logged);
    TouchSet(w, Goto(w, id, Logged), id, Recorded(jobs, partial));
    MoveKeeps(w, SetLedger(Goto(w, id, Logged), id, Recorded(jobs, partial)), id);
  }

  lemma KillSelf(w: World, id: nat)
    requires id in w.locals && SelfOk(w, id)
    ensures SelfOk(KillStep(w, id), id)
  {
  }

  lemma KillTouch(w: World, id: nat)
    requires id in w.locals
    ensures OnlyTouches(w, KillStep(w, id), id)
  {
  }

  lemma KillKeeps(w: World, id: nat)
    requires Inv(w) && id in w.locals
    ensures Inv(KillStep(w, id))
  {
    Around(w, id);
    KillSelf(w, id);
    KillTouch(w, id);
    MoveKeeps(w, KillStep(w, id), id);
  }

  lemma LocalKeeps(w: World, id: nat, done: bool, ok: bool)
    requires Inv(w) && id in w.locals && w.locals[id].alive
    ensures Inv(LocalStep(w, id, done, ok))
  {
    match w.locals[id].phase
    case Waiting => if w.locals[id].checkout !in w.locks { LockKeeps(w, id); }
    case Claiming =>
      if KeyOf(w.locals[id]) in w.ledgers { ClaimTakenKeeps(w, id); } else { ClaimWonKeeps(w, id); }
    case Writing => WriteKeeps(w, id);
    case MakingDir => MkDirKeeps(w, id, done, ok);
    case Preparing => PrepareKeeps(w, id, ok);
    case Launching => LaunchKeeps(w, id, done);
    case Awaiting =>
      if !ok {
        AwaitKeeps(w, id, None);
      } else if id in w.remotes && w.remotes[id].phase.Finished? {
        AwaitKeeps(w, id, Some(w.remotes[id].phase.report));
      }
    case Failing => FailingKeeps(w, id);
    case Deciding(report) =>
      match Decide(report) {
        case Keep => KeepKeeps(w, id);
        case Delete => DeleteKeeps(w, id);
        case Record(jobs, partial) => RecordKeeps(w, id, jobs, partial);
      }
    case Rewriting(jobs, partial) => RewriteKeeps(w, id, jobs, partial);
    case _ =>
  }

  /** A finished create_jobfile does nothing more, and what an unfinished one does keeps its report honest. */
  lemma RemoteStepOk(r: Remote, e: RemoteEvent, p: Phase)
    requires Truthful(r) && Informed(p, r)
    ensures Truthful(RemoteStep(r, e)) && Informed(p, RemoteStep(r, e))
    ensures r.phase.Finished? ==> RemoteStep(r, e) == r
  {
  }

  function RemoteMoves(w: World, id: nat, e: RemoteEvent): World
    requires id in w.remotes
  {
    w.(remotes := w.remotes[id := RemoteStep(w.remotes[id], e)])
  }

  lemma RemoteSelf(w: World, id: nat, e: RemoteEvent)
    requires id in w.locals && id in w.remotes && SelfOk(w, id)
    ensures SelfOk(RemoteMoves(w, id, e), id)
  {
    RemoteStepOk(w.remotes[id], e, w.locals[id].phase);
  }

  lemma RemoteTouch(w: World, id: nat, e: RemoteEvent)
    requires id in w.locals && id in w.remotes
    ensures OnlyTouches(w, RemoteMoves(w, id, e), id)
  {
  }

  lemma RemoteKeeps(w: World, id: nat, e: RemoteEvent)
    requires Inv(w) && id in w.remotes
    ensures Inv(RemoteMoves(w, id, e))
  {
    assert id in w.locals;
    Around(w, id);
    RemoteSelf(w, id, e);
    RemoteTouch(w, id, e);
    MoveKeeps(w, RemoteMoves(w, id, e), id);
  }

  lemma ArriveKeeps(w: World, id: nat, s: Local)
    requires Inv(w) && id !in w.locals && s.phase == Waiting
    ensures Inv(w.(locals := w.locals[id := s]))
  {
    var w' := w.(locals := w.locals[id := s]);
    forall i | i in w'.locals ensures LocalOk(w', i) {
      assert i != id ==> LocalOk(w, i);
    }
    forall c | c in w'.locks ensures LockOk(w', c) {
      assert LockOk(w, c);
    }
    forall k | k in w'.ledgers ensures LedgerOk(w', k) {
      assert LedgerOk(w, k);
    }
  }

  lemma StepKeeps(w: World, a: Action)
    requires Inv(w)
    ensures Inv(Step(w, a))
  {
    match a
    case Arrive(id, checkout, batch, tags) =>
      if id !in w.locals { ArriveKeeps(w, id, Local(checkout, batch, tags, Waiting, true)); }
    case Advance(id, done, ok) =>
      if id in w.locals && w.locals[id].alive { LocalKeeps(w, id, done, ok); }
    case OnCluster(id, e) => if id in w.remotes { RemoteKeeps(w, id, e); }
    case Kill(id) => if id in w.locals { KillKeeps(w, id); }
  }

  lemma {:induction false} RunKeeps(acts: seq<Action>)
    ensures Inv(Run(acts))
  {
    if acts == [] {
    } else {
      RunKeeps(acts[..|acts| - 1]);
      StepKeeps(Run(acts[..|acts| - 1]), acts[|acts| - 1]);
    }
  }

  // ---- main results ----

  /** Submit id has a job in the cluster's queue. */
  ghost predicate HasQueued(w: World, id: nat)
  {
    id in w.remotes && exists b :: b in w.remotes[id].results && b.Accepted?
  }

  /** Every accepted sbatch printed a job id. */
  ghost predicate PrintsIds(acts: seq<Action>)
  {
    forall a :: a in acts && a.OnCluster? && a.event.Submit? && a.event.result.Accepted? ==> a.event.result.id.Some?
  }

  ghost predicate AllNamed(w: World)
  {
    forall id, b :: id in w.remotes && b in w.remotes[id].results && b.Accepted? ==> b.id.Some?
  }

  lemma {:induction false} RunNamed(acts: seq<Action>)
    requires PrintsIds(acts)
    ensures AllNamed(Run(acts))
  {
    if acts == [] {
    } else {
      var before, a := acts[..|acts| - 1], acts[|acts| - 1];
      assert a in acts;
      RunNamed(before);
      StepNamed(Run(before), a);
    }
  }

  /** Only a step on the cluster adds results. */
  ghost predicate SameResults(w: World, w': World)
  {
    forall id :: id in w'.remotes ==>
      w'.remotes[id].results == [] || (id in w.remotes && w'.remotes[id] == w.remotes[id])
  }

  lemma PartRemotes(w: World, id: nat, done: bool, ok: bool)
    requires id in w.locals
    ensures ClaimStep(w, id).remotes == w.remotes && MkDirStep(w, id, done, ok).remotes == w.remotes
    ensures AwaitStep(w, id, ok).remotes == w.remotes
  {
  }

  lemma DecideRemotes(w: World, id: nat, report: Option<Report>)
    requires id in w.locals
    ensures DecideStep(w, id, report).remotes == w.remotes
  {
  }

  /** Of the local steps only the launch touches the remote side, with a create_jobfile that has done nothing. */
  lemma LocalRemotes(w: World, id: nat, done: bool, ok: bool)
    requires id in w.locals && w.locals[id].phase != Launching
    ensures LocalStep(w, id, done, ok).remotes == w.remotes
  {
    match w.locals[id].phase
    case Claiming => PartRemotes(w, id, done, ok);
    case MakingDir => PartRemotes(w, id, done, ok);
    case Awaiting => PartRemotes(w, id, done, ok);
    case Deciding(report) => DecideRemotes(w, id, report);
    case _ =>
  }

  lemma LocalSameResults(w: World, id: nat, done: bool, ok: bool)
    requires id in w.locals
    ensures SameResults(w, LocalStep(w, id, done, ok))
  {
    if w.locals[id].phase == Launching {
      assert LocalStep(w, id, done, ok) == LaunchStep(w, id, done);
    } else {
      LocalRemotes(w, id, done, ok);
    }
  }

  lemma StepNamed(w: World, a: Action)
    requires AllNamed(w)
    requires a.OnCluster? && a.event.Submit? && a.event.result.Accepted? ==> a.event.result.id.Some?
    ensures AllNamed(Step(w, a))
  {
    match a
    case Advance(id, done, ok) => if id in w.locals { LocalSameResults(w, id, done, ok); }
    case OnCluster(id, e) => if id in w.remotes { RemoteNamed(w, id, e); }
    case _ => assert Step(w, a).remotes == w.remotes;
  }

  lemma RemoteNamed(w: World, id: nat, e: RemoteEvent)
    requires AllNamed(w) && id in w.remotes
    requires e.Submit? && e.result.Accepted? ==> e.result.id.Some?
    ensures AllNamed(RemoteMoves(w, id, e))
  {
    var r := RemoteStep(w.remotes[id], e);
    assert forall b :: b in r.results && b !in w.remotes[id].results ==> e.Submit? && b == e.result;
  }

  /** A claim is dropped after a launch only when the launch queued nothing. */
  lemma DroppedQueuedNothing(w: World, id: nat)
    requires Inv(w) && AllNamed(w) && id in w.locals && w.locals[id].phase == Dropped
    ensures !HasQueued(w, id)
  {
    assert LocalOk(w, id);
    if HasQueued(w, id) {
      var r := w.remotes[id];
      var b :| b in r.results && b.Accepted?;
      assert !Nameless(b);
      DeletesQueuedJobs(r.tags, r.results);
    }
  }

  /** In every run, whatever crashed and when: a batch with a queued job has its ledger file, holding the
      placeholder or the record, except exactly in the window in which save_ledger has truncated it. */
  lemma QueuedHasLedger(acts: seq<Action>, id: nat)
    requires PrintsIds(acts) && HasQueued(Run(acts), id)
    ensures var w := Run(acts);
            && id in w.locals && KeyOf(w.locals[id]) in w.ledgers
            && w.ledgers[KeyOf(w.locals[id])].owner == id
            && (w.ledgers[KeyOf(w.locals[id])].content == Blank <==> w.locals[id].phase.Rewriting?)
  {
    var w := Run(acts);
    RunKeeps(acts);
    RunNamed(acts);
    assert LocalOk(w, id);
    if w.locals[id].phase == Dropped {
      DroppedQueuedNothing(w, id);
    }
  }

  lemma RunSnoc(acts: seq<Action>, a: Action)
    ensures Run(acts + [a]) == Step(Run(acts), a)
  {
    assert (acts + [a])[..|acts|] == acts;
  }

  lemma StepSameKeys(w: World, a: Action)
    ensures SameKeys(w, Step(w, a))
  {
  }

  /** A submit that was dropped stays dropped. */
  lemma DroppedStays(w: World, a: Action, id: nat)
    requires id in w.locals && w.locals[id].phase == Dropped
    ensures id in Step(w, a).locals && Step(w, a).locals[id].phase == Dropped
  {
    if a.Advance? && a.id in w.locals && w.locals[a.id].alive {
      LocalPhases(w, a.id, a.done, a.ok, id);
    }
  }

  lemma ClaimPhases(w: World, moved: nat, done: bool, ok: bool, id: nat)
    requires moved in w.locals && id in w.locals && id != moved
    ensures ClaimStep(w, moved).locals[id] == w.locals[id] && MkDirStep(w, moved, done, ok).locals[id] == w.locals[id]
  {
  }

  lemma LaunchPhases(w: World, moved: nat, done: bool, ok: bool, id: nat)
    requires moved in w.locals && id in w.locals && id != moved
    ensures LaunchStep(w, moved, done).locals[id] == w.locals[id] && AwaitStep(w, moved, ok).locals[id] == w.locals[id]
  {
  }

  lemma DecidePhases(w: World, moved: nat, report: Option<Report>, id: nat)
    requires moved in w.locals && id in w.locals && id != moved
    ensures DecideStep(w, moved, report).locals[id] == w.locals[id]
  {
  }

  lemma LocalPhases(w: World, moved: nat, done: bool, ok: bool, id: nat)
    requires moved in w.locals && id in w.locals && (id != moved || w.locals[id].phase == Dropped)
    ensures id in LocalStep(w, moved, done, ok).locals
    ensures LocalStep(w, moved, done, ok).locals[id].phase == w.locals[id].phase
  {
    if id == moved {
      assert LocalStep(w, moved, done, ok) == w;
    } else {
      match w.locals[moved].phase
      case Claiming => ClaimPhases(w, moved, done, ok, id);
      case MakingDir => ClaimPhases(w, moved, done, ok, id);
      case Launching => LaunchPhases(w, moved, done, ok, id);
      case Awaiting => LaunchPhases(w, moved, done, ok, id);
      case Deciding(report) => DecidePhases(w, moved, report, id);
      case _ =>
    }
  }

  lemma {:induction false} DroppedForGood(acts: seq<Action>, more: seq<Action>, id: nat)
    requires id in Run(acts).locals && Run(acts).locals[id].phase == Dropped
    ensures id in Run(acts + more).locals && Run(acts + more).locals[id].phase == Dropped
  {
    if more == [] {
      assert acts + more == acts;
    } else {
      var front, a := more[..|more| - 1], more[|more| - 1];
      assert acts + more == acts + front + [a];
      DroppedForGood(acts, front, id);
      RunSnoc(acts + front, a);
      DroppedStays(Run(acts + front), a, id);
    }
  }

  /** Only its owner removes a ledger, and is dropped by that. */
  lemma RemovalDrops(w: World, a: Action, key: Key)
    requires Inv(w) && key in w.ledgers && key !in Step(w, a).ledgers
    ensures var id := w.ledgers[key].owner;
            id in Step(w, a).locals && Step(w, a).locals[id].phase == Dropped
  {
    assert LedgerOk(w, key);
    assert a.Advance? && LocalOk(w, a.id);
    LocalRemoval(w, a.id, a.done, a.ok, key);
  }

  lemma ClaimLedgers(w: World, id: nat)
    requires id in w.locals
    ensures w.ledgers.Keys <= ClaimStep(w, id).ledgers.Keys
  {
    if KeyOf(w.locals[id]) in w.ledgers {
      assert ClaimStep(w, id).ledgers == w.ledgers;
    } else {
      assert ClaimStep(w, id).ledgers == w.ledgers[KeyOf(w.locals[id]) := Ledger(id, Blank)];
    }
  }

  lemma QuietLedgers(w: World, id: nat, done: bool, ok: bool)
    requires id in w.locals
    ensures MkDirStep(w, id, done, ok).ledgers == w.ledgers && LaunchStep(w, id, done).ledgers == w.ledgers
    ensures AwaitStep(w, id, ok).ledgers == w.ledgers
  {
  }

  lemma DecideLedgers(w: World, id: nat, report: Option<Report>)
    requires id in w.locals
    ensures Decide(report) != Delete ==> w.ledgers.Keys <= DecideStep(w, id, report).ledgers.Keys
    ensures Decide(report) == Delete ==> DecideStep(w, id, report) == RemoveLedger(Goto(w, id, Dropped), id)
  {
  }

  /** The two steps that give a claim up. */
  predicate GivesUp(p: Phase)
  {
    p == Failing || (p.Deciding? && Decide(p.report) == Delete)
  }

  lemma StaysOnFile(w: World, id: nat, done: bool, ok: bool)
    requires id in w.locals && !GivesUp(w.locals[id].phase)
    ensures w.ledgers.Keys <= LocalStep(w, id, done, ok).ledgers.Keys
  {
    match w.locals[id].phase
    case Claiming => ClaimLedgers(w, id);
    case MakingDir => QuietLedgers(w, id, done, ok);
    case Launching => QuietLedgers(w, id, done, ok);
    case Awaiting => QuietLedgers(w, id, done, ok);
    case Deciding(report) => DecideLedgers(w, id, report);
    case _ =>
  }

  lemma GivenUp(w: World, id: nat, done: bool, ok: bool)
    requires id in w.locals && GivesUp(w.locals[id].phase)
    ensures var w' := LocalStep(w, id, done, ok);
            id in w'.locals && w'.locals[id].phase == Dropped && w'.ledgers == w.ledgers - {KeyOf(w.locals[id])}
  {
    if w.locals[id].phase.Deciding? {
      DecideLedgers(w, id, w.locals[id].phase.report);
    }
  }

  lemma LocalRemoval(w: World, id: nat, done: bool, ok: bool, key: Key)
    requires id in w.locals && LocalOk(w, id) && key in w.ledgers && key !in LocalStep(w, id, done, ok).ledgers
    ensures w.ledgers[key].owner == id && LocalStep(w, id, done, ok).locals[id].phase == Dropped
  {
    if GivesUp(w.locals[id].phase) {
      GivenUp(w, id, done, ok);
    } else {
      StaysOnFile(w, id, done, ok);
    }
  }

  /** A step that removes a submit's ledger is one after which that submit has nothing queued. */
  lemma DeletedOnlyIfNothingQueued(acts: seq<Action>, a: Action, key: Key)
    requires PrintsIds(acts + [a]) && key in Run(acts).ledgers && key !in Run(acts + [a]).ledgers
    ensures !HasQueued(Run(acts + [a]), Run(acts).ledgers[key].owner)
  {
    var w := Run(acts);
    var id := w.ledgers[key].owner;
    RunKeeps(acts);
    RunSnoc(acts, a);
    assert LedgerOk(w, key);
    StepSameKeys(w, a);
    if HasQueued(Step(w, a), id) {
      QueuedHasLedger(acts + [a], id);
    }
  }

  /** Nor will it ever have: nothing is queued for it in any continuation. */
  lemma DeletedNeverQueues(acts: seq<Action>, a: Action, more: seq<Action>, key: Key)
    requires PrintsIds(acts + [a] + more) && key in Run(acts).ledgers && key !in Run(acts + [a]).ledgers
    ensures !HasQueued(Run(acts + [a] + more), Run(acts).ledgers[key].owner)
  {
    var id := Run(acts).ledgers[key].owner;
    RunKeeps(acts);
    RunSnoc(acts, a);
    RemovalDrops(Run(acts), a, key);
    DroppedForGood(acts + [a], more, id);
    RunKeeps(acts + [a] + more);
    RunNamed(acts + [a] + more);
    DroppedQueuedNothing(Run(acts + [a] + more), id);
  }

  /** No two submits proceed with one batch id, from the same checkout or from different ones; two submits of
      one checkout never hold one ledger; and at most one submit of a checkout is under its lock. */
  lemma BatchIdsAreUnique(acts: seq<Action>, i: nat, j: nat)
    requires var w := Run(acts);
             i in w.locals && j in w.locals && i != j
    ensures var w := Run(acts);
            var s, t := w.locals[i], w.locals[j];
            && (Proceeds(s.phase) && Proceeds(t.phase) ==> s.batch != t.batch)
            && (Owns(s.phase) && Owns(t.phase) ==> KeyOf(s) != KeyOf(t))
            && (s.alive && t.alive && Locking(s.phase) && Locking(t.phase) ==> s.checkout != t.checkout)
  {
    RunKeeps(acts);
    assert LocalOk(Run(acts), i) && LocalOk(Run(acts), j);
  }

  /** recorded: only a recorded ledger is accepted. */
  function Accept(c: Content): Option<seq<JobRow>>
  {
    if c.Recorded? then Some(c.jobs) else None
  }

  /** A batch whose ledger is accepted has exactly its queued jobs listed in it, and its create_jobfile is
      finished, so no more will come. */
  lemma RecordedListsEveryJob(acts: seq<Action>, key: Key, jobId: nat)
    requires key in Run(acts).ledgers && Accept(Run(acts).ledgers[key].content).Some?
    ensures var w := Run(acts);
            var id, jobs := w.ledgers[key].owner, Accept(w.ledgers[key].content).value;
            && id in w.remotes && w.remotes[id].phase.Finished?
            && (Accepted(Some(jobId)) in w.remotes[id].results <==> Lists(jobs, jobId))
  {
    var w := Run(acts);
    var id := w.ledgers[key].owner;
    RunKeeps(acts);
    assert LedgerOk(w, key) && LocalOk(w, id);
    assert w.locals[id].phase == Logged;
    FinishedLists(w.remotes[id], w.ledgers[key].content, jobId);
  }

  lemma FinishedLists(r: Remote, c: Content, jobId: nat)
    requires Truthful(r) && Faithful(c, r)
    ensures Accepted(Some(jobId)) in r.results <==> Lists(c.jobs, jobId)
  {
    RecordedJobs(r.tags[..|r.results|], r.results, jobId);
    assert r.tags[..|r.tags|] == r.tags;
  }

  /** The window is real: a crash between save_ledger's truncation and its write leaves a batch with a report
      to record, its jobs still queued, and a ledger nobody can read. */
  lemma CrashTearsTheLedger(acts: seq<Action>, id: nat)
    requires var w := Run(acts);
             && id in w.locals && w.locals[id].alive && w.locals[id].phase.Deciding?
             && Decide(w.locals[id].phase.report).Record?
    ensures var w := Run(acts + [Advance(id, true, true)] + [Kill(id)]);
            && id in w.locals && !w.locals[id].alive && KeyOf(w.locals[id]) in w.ledgers
            && Accept(w.ledgers[KeyOf(w.locals[id])].content) == None
            && w.ledgers[KeyOf(w.locals[id])].content == Blank
            && (HasQueued(w, id) <==> HasQueued(Run(acts), id))
  {
    RunSnoc(acts, Advance(id, true, true));
    RunSnoc(acts + [Advance(id, true, true)], Kill(id));
  }

  const GOES_ON: Action := Advance(0, true, true)
  const CLAIMED: seq<Action> := [Arrive(0, 0, 0, ["job"])] + [GOES_ON] + [GOES_ON] + [GOES_ON]
  const LAUNCHED: seq<Action> := CLAIMED + [GOES_ON] + [GOES_ON] + [GOES_ON]
  const QUEUED: seq<Action> := LAUNCHED + [OnCluster(0, Smoke(0))] + [OnCluster(0, Submit(Accepted(Some(1))))]
  const REPORTED: seq<Action> := QUEUED + [GOES_ON]

  /** One submit of one job, at some phase. */
  predicate OneSubmit(w: World, p: Phase)
  {
    0 in w.locals && w.locals[0] == Local(0, 0, ["job"], p, true)
  }

  lemma OneClaimed()
    ensures var w := Run(CLAIMED);
            && OneSubmit(w, MakingDir) && (0, 0) in w.ledgers && 0 !in w.dirs && w.remotes == map[]
  {
    var start := [Arrive(0, 0, 0, ["job"])];
    assert start == [] + start;
    RunSnoc([], Arrive(0, 0, 0, ["job"]));
    RunSnoc(start, GOES_ON);
    RunSnoc(start + [GOES_ON], GOES_ON);
    RunSnoc(start + [GOES_ON] + [GOES_ON], GOES_ON);
    var w1 := Run(start);
    assert OneSubmit(w1, Waiting) && w1.locks == map[] && w1.ledgers == map[];
    var w2 := Step(w1, GOES_ON);
    assert OneSubmit(w2, Claiming) && w2.ledgers == map[];
    var w3 := Step(w2, GOES_ON);
    assert OneSubmit(w3, Writing) && (0, 0) in w3.ledgers;
  }

  lemma OneLaunched()
    ensures var w := Run(LAUNCHED);
            && OneSubmit(w, Awaiting) && (0, 0) in w.ledgers
            && 0 in w.remotes && w.remotes[0] == Remote(["job"], [], Smoking)
  {
    OneClaimed();
    var w4 := Run(CLAIMED + [GOES_ON]);
    RunSnoc(CLAIMED, GOES_ON);
    assert OneSubmit(w4, Preparing) && (0, 0) in w4.ledgers;
    RunSnoc(CLAIMED + [GOES_ON], GOES_ON);
    assert OneSubmit(Step(w4, GOES_ON), Launching);
    RunSnoc(CLAIMED + [GOES_ON] + [GOES_ON], GOES_ON);
  }

  const ALL_WELL: Report := Report(Ok, [JobRow("job", Some(1), 0)], [])

  lemma OneReport()
    ensures Launched(0, ["job"], [Accepted(Some(1))]) == ALL_WELL
    ensures Decide(Some(ALL_WELL)) == Record(ALL_WELL.jobs, false)
  {
    var tags, results := ["job"], [Accepted(Some(1))];
    assert tags[..0] == [] && results[..0] == [];
    assert Failures(tags, results) == Failures([], []) + [];
    assert ALL_WELL.jobs[..0] == [] && Rows(tags, results) == ALL_WELL.jobs;
  }

  lemma OneQueued()
    ensures var w := Run(QUEUED);
            && OneSubmit(w, Awaiting) && 0 in w.remotes
            && w.remotes[0] == Remote(["job"], [Accepted(Some(1))], Finished(ALL_WELL))
  {
    OneLaunched();
    OneReport();
    var w := Run(LAUNCHED);
    RunSnoc(LAUNCHED, OnCluster(0, Smoke(0)));
    var r := RemoteStep(w.remotes[0], Smoke(0));
    assert r == Remote(["job"], [], Submitting);
    RunSnoc(LAUNCHED + [OnCluster(0, Smoke(0))], OnCluster(0, Submit(Accepted(Some(1)))));
    assert r.results + [Accepted(Some(1))] == [Accepted(Some(1))];
  }

  /** One job, accepted and reported; the local process is killed while it rewrites its ledger: the job is
      queued, and its ledger is blank. */
  lemma QueuedJobCanLoseItsRecord()
    ensures var w := Run(REPORTED + [GOES_ON] + [Kill(0)]);
            && HasQueued(w, 0) && 0 in w.locals && !w.locals[0].alive
            && (0, 0) in w.ledgers && w.ledgers[(0, 0)] == Ledger(0, Blank)
  {
    OneQueued();
    OneReport();
    RunSnoc(QUEUED, GOES_ON);
    var w := Run(REPORTED);
    assert OneSubmit(w, Deciding(Some(ALL_WELL)));
    RunSnoc(REPORTED, GOES_ON);
    var torn := Step(w, GOES_ON);
    assert OneSubmit(torn, Rewriting(ALL_WELL.jobs, false)) && torn.remotes == w.remotes;
    RunSnoc(REPORTED + [GOES_ON], Kill(0));
    assert Accepted(Some(1)) in w.remotes[0].results;
  }

  // ---- the claim ----

  /** Another submit of the same checkout is at work under the lock. */
  predicate Rival(w: World, id: nat, other: nat)
    requires id in w.locals && other in w.locals
  {
    && other != id && w.locals[other].alive && Locking(w.locals[other].phase)
    && w.locals[other].checkout == w.locals[id].checkout
  }

  /** Claiming a batch id: a taken one refuses the submit, with every ledger, run dir and launch as it was and the
      checkout's lock free again; a free one becomes this submit's, and no other submit of the checkout is
      between its claim and its launch. */
  lemma ClaimOrRefuse(acts: seq<Action>, id: nat, done: bool, ok: bool)
    requires id in Run(acts).locals && Run(acts).locals[id].alive && Run(acts).locals[id].phase == Claiming
    ensures var w, w' := Run(acts), Run(acts + [Advance(id, done, ok)]);
            var s := w.locals[id];
            && id in w'.locals && w'.dirs == w.dirs && w'.remotes == w.remotes
            && if KeyOf(s) in w.ledgers
               then w'.locals[id].phase == Dropped && w'.ledgers == w.ledgers && s.checkout !in w'.locks
               else
                 && w'.locals[id].phase == Writing && w'.ledgers == w.ledgers[KeyOf(s) := Ledger(id, Blank)]
                 && forall other :: other in w.locals ==> !Rival(w, id, other)
  {
    var w := Run(acts);
    RunKeeps(acts);
    RunSnoc(acts, Advance(id, done, ok));
    assert LocalOk(w, id);
    forall other | other in w.locals ensures !Rival(w, id, other) {
      assert LocalOk(w, other);
    }
  }
}
