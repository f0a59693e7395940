/** What a fetch does when nobody interferes: from any state any run can reach, the call ends, and how it ends is
    decided by the entry, the source and the checksum it was given. */
module FetchProgress {
  import opened Bytes
  import opened TraceCache

  // ---- tempfiles ----

  /** A running call has a tempfile only between creating it and renaming or removing it. */
  ghost predicate Tidy(w: World)
  {
    forall pid :: pid in w.procs && pid in w.temps ==> w.procs[pid].phase in {Copying, Copied, Renaming, Failing}
  }

  lemma AdvanceTidy(cfg: Config, w: World, pid: nat, chunk: nat)
    requires Tidy(w) && pid in w.procs
    ensures Tidy(StepProc(cfg, w, pid, chunk))
  {
  }

  lemma StepTidy(cfg: Config, w: World, a: Action)
    requires Tidy(w)
    ensures Tidy(Step(cfg, w, a))
  {
    if a.Advance? && a.pid in w.procs {
      AdvanceTidy(cfg, w, a.pid, a.chunk);
    }
  }

  /** In every run, a call that has returned or raised has left no tempfile behind; only killed ones do. */
  lemma {:induction false} RunTidy(cfg: Config, entry: Option<seq<Byte>>, acts: seq<Action>)
    ensures Tidy(Run(cfg, entry, acts))
  {
    if acts == [] {
    } else {
      RunTidy(cfg, entry, acts[..|acts| - 1]);
      StepTidy(cfg, Run(cfg, entry, acts[..|acts| - 1]), acts[|acts| - 1]);
    }
  }

  // ---- one process alone ----

  /** The same action n times. */
  function Repeated(a: Action, n: nat): seq<Action>
  {
    seq(n, i => a)
  }

  /** n steps of one process, a byte at a time where it copies. */
  function Alone(cfg: Config, w: World, pid: nat, n: nat): World
    decreases n
  {
    if n == 0 then w else Alone(cfg, Step(cfg, w, Advance(pid, 1)), pid, n - 1)
  }

  lemma {:induction false} AloneSnoc(cfg: Config, w: World, pid: nat, n: nat)
    ensures Alone(cfg, w, pid, n + 1) == Step(cfg, Alone(cfg, w, pid, n), Advance(pid, 1))
    decreases n
  {
    if n == 0 {
    } else {
      AloneSnoc(cfg, Step(cfg, w, Advance(pid, 1)), pid, n - 1);
    }
  }

  lemma {:induction false} AloneIsRun(cfg: Config, entry: Option<seq<Byte>>, acts: seq<Action>, pid: nat, n: nat)
    ensures Run(cfg, entry, acts + Repeated(Advance(pid, 1), n)) == Alone(cfg, Run(cfg, entry, acts), pid, n)
    decreases n
  {
    var a := Advance(pid, 1);
    if n == 0 {
      assert acts + Repeated(a, 0) == acts;
    } else {
      AloneIsRun(cfg, entry, acts, pid, n - 1);
      assert acts + Repeated(a, n) == acts + Repeated(a, n - 1) + [a];
      RunSnoc(cfg, entry, acts + Repeated(a, n - 1), a);
      AloneSnoc(cfg, Run(cfg, entry, acts), pid, n - 1);
    }
  }

  /** The call is over: it returned or raised, its tempfile is gone and the lock is free. */
  function Ended(w: World, pid: nat, phase: Phase, published: Option<seq<Byte>>, publications: nat): World
    requires pid in w.procs
  {
    World(w.procs[pid := Proc(phase, w.procs[pid].want)], published, w.temps - {pid}, None, publications)
  }

  lemma {:induction false} Stays(cfg: Config, w: World, pid: nat, n: nat)
    requires pid in w.procs && w.procs[pid].phase in {Returned, Raised}
    ensures Alone(cfg, w, pid, n) == w
  {
    if n == 0 {
    } else {
      Stays(cfg, w, pid, n - 1);
    }
  }

  lemma FromReturning(cfg: Config, w: World, pid: nat, n: nat)
    requires pid in w.procs && pid !in w.temps && w.procs[pid].phase == Returning && n >= 1
    ensures Alone(cfg, w, pid, n) == Ended(w, pid, Returned, w.published, w.publications)
  {
    var w' := StepProc(cfg, w, pid, 1);
    Stays(cfg, w', pid, n - 1);
    assert w.temps - {pid} == w.temps;
  }

  lemma FromFailing(cfg: Config, w: World, pid: nat, n: nat)
    requires pid in w.procs && w.procs[pid].phase == Failing && n >= 1
    ensures Alone(cfg, w, pid, n) == Ended(w, pid, Raised, w.published, w.publications)
  {
    var w' := StepProc(cfg, w, pid, 1);
    Stays(cfg, w', pid, n - 1);
  }

  /** The end of a call does not depend on the phase it was in before. */
  lemma SameEnd(w: World, w': World, pid: nat, phase: Phase, published: Option<seq<Byte>>, publications: nat)
    requires pid in w.procs && pid in w'.procs
    requires w'.procs == w.procs[pid := Proc(w'.procs[pid].phase, w.procs[pid].want)]
    requires w'.temps - {pid} == w.temps - {pid}
    ensures Ended(w', pid, phase, published, publications) == Ended(w, pid, phase, published, publications)
  {
    assert w'.procs[pid := Proc(phase, w.procs[pid].want)] == w.procs[pid := Proc(phase, w.procs[pid].want)];
  }

  lemma FromRenaming(cfg: Config, w: World, pid: nat, n: nat)
    requires pid in w.procs && pid in w.temps && w.procs[pid].phase == Renaming && n >= 2
    ensures Alone(cfg, w, pid, n) == Ended(w, pid, Returned, Some(w.temps[pid]), w.publications + 1)
  {
    var w' := StepProc(cfg, w, pid, 1);
    FromReturning(cfg, w', pid, n - 1);
    SameEnd(w, w', pid, Returned, Some(w.temps[pid]), w.publications + 1);
  }

  /** The checksum that was asked for, if any. */
  predicate HasDigest(cfg: Config, want: Option<Digest>, content: seq<Byte>)
  {
    want.Some? ==> want.value == cfg.sha(content)
  }

  lemma FromCopied(cfg: Config, w: World, pid: nat, n: nat)
    requires pid in w.procs && pid in w.temps && w.procs[pid].phase == Copied && n >= 3
    ensures Alone(cfg, w, pid, n) == if HasDigest(cfg, w.procs[pid].want, w.temps[pid])
                                     then Ended(w, pid, Returned, Some(w.temps[pid]), w.publications + 1)
                                     else Ended(w, pid, Raised, w.published, w.publications)
  {
    var w' := StepProc(cfg, w, pid, 1);
    if HasDigest(cfg, w.procs[pid].want, w.temps[pid]) {
      FromRenaming(cfg, w', pid, n - 1);
      SameEnd(w, w', pid, Returned, Some(w.temps[pid]), w.publications + 1);
    } else {
      FromFailing(cfg, w', pid, n - 1);
      SameEnd(w, w', pid, Raised, w.published, w.publications);
    }
  }

  /** How a call ends that has found no entry, or removed a wrong one. */
  function Fetched(cfg: Config, w: World, pid: nat): World
    requires pid in w.procs
  {
    if cfg.source.Some? && HasDigest(cfg, w.procs[pid].want, cfg.source.value)
    then Ended(w, pid, Returned, cfg.source, w.publications + 1)
    else Ended(w, pid, Raised, None, w.publications)
  }

  lemma SameFetched(cfg: Config, w: World, w': World, pid: nat)
    requires pid in w.procs && pid in w'.procs && w'.publications == w.publications
    requires w'.procs == w.procs[pid := Proc(w'.procs[pid].phase, w.procs[pid].want)]
    requires w'.temps - {pid} == w.temps - {pid}
    ensures Fetched(cfg, w', pid) == Fetched(cfg, w, pid)
  {
    if cfg.source.Some? && HasDigest(cfg, w.procs[pid].want, cfg.source.value) {
      SameEnd(w, w', pid, Returned, cfg.source, w.publications + 1);
    } else {
      SameEnd(w, w', pid, Raised, None, w.publications);
    }
  }

  /** Copying ends, whatever has been copied so far: one step a byte. */
  lemma {:induction false} FromCopying(cfg: Config, w: World, pid: nat, n: nat)
    requires pid in w.procs && pid in w.temps && w.procs[pid].phase == Copying && w.published == None
    requires cfg.source.Some? && w.temps[pid] <= cfg.source.value
    requires n >= |cfg.source.value| - |w.temps[pid]| + 4
    ensures Alone(cfg, w, pid, n) == Fetched(cfg, w, pid)
    decreases |cfg.source.value| - |w.temps[pid]|
  {
    var w' := StepProc(cfg, w, pid, 1);
    if |w.temps[pid]| == |cfg.source.value| {
      assert w.temps[pid] == cfg.source.value;
      FromCopied(cfg, w', pid, n - 1);
    } else {
      FromCopying(cfg, w', pid, n - 1);
    }
    SameFetched(cfg, w, w', pid);
  }

  /** Nothing to copy from: an s3:// object that is not there. */
  lemma FromCopyingNothing(cfg: Config, w: World, pid: nat, n: nat)
    requires pid in w.procs && w.procs[pid].phase == Copying && w.published == None && cfg.source == None && n >= 2
    ensures Alone(cfg, w, pid, n) == Fetched(cfg, w, pid)
  {
    var w' := StepProc(cfg, w, pid, 1);
    FromFailing(cfg, w', pid, n - 1);
    SameFetched(cfg, w, w', pid);
  }

  function SourceSize(cfg: Config): nat
  {
    if cfg.source.Some? then |cfg.source.value| else 0
  }

  lemma FromCreating(cfg: Config, w: World, pid: nat, n: nat)
    requires pid in w.procs && w.procs[pid].phase == Creating && w.published == None && n >= SourceSize(cfg) + 5
    ensures Alone(cfg, w, pid, n) == Fetched(cfg, w, pid)
  {
    var w' := StepProc(cfg, w, pid, 1);
    assert w'.temps - {pid} == w.temps - {pid};
    if cfg.source.Some? {
      FromCopying(cfg, w', pid, n - 1);
    } else {
      FromCopyingNothing(cfg, w', pid, n - 1);
    }
    SameFetched(cfg, w, w', pid);
  }

  lemma FromChecking(cfg: Config, w: World, pid: nat, n: nat)
    requires pid in w.procs && pid !in w.temps && w.procs[pid].phase == Checking && w.published == None
    requires n >= SourceSize(cfg) + 6
    ensures Alone(cfg, w, pid, n) == Fetched(cfg, w, pid)
  {
    var w' := StepProc(cfg, w, pid, 1);
    if !cfg.s3 && cfg.source == None {
      Stays(cfg, w', pid, n - 1);
      assert w.temps - {pid} == w.temps;
    } else {
      FromCreating(cfg, w', pid, n - 1);
      SameFetched(cfg, w, w', pid);
    }
  }

  lemma FromRemoving(cfg: Config, w: World, pid: nat, n: nat)
    requires pid in w.procs && pid !in w.temps && w.procs[pid].phase == Removing && n >= SourceSize(cfg) + 7
    ensures Alone(cfg, w, pid, n) == Fetched(cfg, w, pid)
  {
    var w' := StepProc(cfg, w, pid, 1);
    FromChecking(cfg, w', pid, n - 1);
    SameFetched(cfg, w, w', pid);
  }

  /** An entry that will do. */
  predicate Cached(cfg: Config, w: World, want: Option<Digest>)
  {
    w.published.Some? && HasDigest(cfg, want, w.published.value)
  }

  lemma FromHashing(cfg: Config, w: World, pid: nat, n: nat)
    requires pid in w.procs && pid !in w.temps && w.procs[pid].phase == Hashing && w.published.Some?
    requires n >= SourceSize(cfg) + 8
    ensures Alone(cfg, w, pid, n) == if Cached(cfg, w, w.procs[pid].want)
                                     then Ended(w, pid, Returned, w.published, w.publications)
                                     else Fetched(cfg, w, pid)
  {
    var w' := StepProc(cfg, w, pid, 1);
    if Cached(cfg, w, w.procs[pid].want) {
      FromReturning(cfg, w', pid, n - 1);
      SameEnd(w, w', pid, Returned, w.published, w.publications);
    } else {
      FromRemoving(cfg, w', pid, n - 1);
      SameFetched(cfg, w, w', pid);
    }
  }

  lemma FromLocked(cfg: Config, w: World, pid: nat, n: nat)
    requires pid in w.procs && pid !in w.temps && w.procs[pid].phase == Locked && n >= SourceSize(cfg) + 9
    ensures Alone(cfg, w, pid, n) == if Cached(cfg, w, w.procs[pid].want)
                                     then Ended(w, pid, Returned, w.published, w.publications)
                                     else Fetched(cfg, w, pid)
  {
    var w' := StepProc(cfg, w, pid, 1);
    if w.published == None {
      FromChecking(cfg, w', pid, n - 1);
      SameFetched(cfg, w, w', pid);
    } else {
      if w.procs[pid].want == None {
        FromReturning(cfg, w', pid, n - 1);
      } else {
        FromHashing(cfg, w', pid, n - 1);
        SameFetched(cfg, w, w', pid);
      }
      SameEnd(w, w', pid, Returned, w.published, w.publications);
    }
  }

  lemma FromWaiting(cfg: Config, w: World, pid: nat, n: nat)
    requires pid in w.procs && pid !in w.temps && w.procs[pid].phase == Waiting && w.lock == None
    requires n >= SourceSize(cfg) + 10
    ensures Alone(cfg, w, pid, n) == if Cached(cfg, w, w.procs[pid].want)
                                     then Ended(w, pid, Returned, w.published, w.publications)
                                     else Fetched(cfg, w, pid)
  {
    var w' := StepProc(cfg, w, pid, 1);
    FromLocked(cfg, w', pid, n - 1);
    SameFetched(cfg, w, w', pid);
    SameEnd(w, w', pid, Returned, w.published, w.publications);
  }

  // ---- main result ----

  /** From any state of any run with the lock free, a waiting call that is left alone ends within as many steps as
      the source has bytes and ten more. A good entry is returned as it is; otherwise the source, if it has the
      checksum asked for, becomes the entry, published once; otherwise the call raises and there is no entry. No
      other call, no other tempfile and not the lock is touched. */
  lemma FetchEnds(cfg: Config, entry: Option<seq<Byte>>, acts: seq<Action>, pid: nat, n: nat)
    requires var w := Run(cfg, entry, acts);
             w.lock == None && pid in w.procs && w.procs[pid].phase == Waiting
    requires n >= SourceSize(cfg) + 10
    ensures var w, w' := Run(cfg, entry, acts), Run(cfg, entry, acts + Repeated(Advance(pid, 1), n));
            var want := w.procs[pid].want;
            var cached := w.published.Some? && (want == None || want.value == cfg.sha(w.published.value));
            var good := cfg.source.Some? && (want == None || want.value == cfg.sha(cfg.source.value));
            && w'.procs == w.procs[pid := Proc(if cached || good then Returned else Raised, want)]
            && w'.published == (if cached then w.published else if good then cfg.source else None)
            && w'.publications == w.publications + (if good && !cached then 1 else 0)
            && w'.temps == w.temps && w'.lock == None
  {
    var w := Run(cfg, entry, acts);
    RunTidy(cfg, entry, acts);
    AloneIsRun(cfg, entry, acts, pid, n);
    FromWaiting(cfg, w, pid, n);
    assert w.temps - {pid} == w.temps;
  }
}
