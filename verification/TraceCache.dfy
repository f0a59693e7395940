/** The node-local trace cache as a protocol: any number of processes fetching one name from one immutable
    source, each between any two of its steps interruptible, able to fail, and able to be killed. */
module TraceCache {
  import opened Bytes

  // ---- the shared world ----

  type Digest = nat

  /** The source's content, if it exists; whether it is an s3:// object; and the hash. */
  datatype Config = Config(source: Option<seq<Byte>>, s3: bool, sha: seq<Byte> -> Digest)

  /** Where a call to fetch is. Everything from Locked to Failing happens under the lock. */
  datatype Phase =
    | Waiting    // blocked in flock
    | Locked     // about to look the entry up
    | Hashing    // an entry exists and a checksum was given
    | Removing   // the entry has the wrong checksum
    | Checking   // no entry: does the source exist?
    | Creating   // about to create the tempfile
    | Copying
    | Copied     // about to compare the checksum
    | Renaming
    | Returning  // the value is decided, the lock not yet released
    | Failing    // about to remove the tempfile and re-raise
    | Returned
    | Raised

  datatype Proc = Proc(phase: Phase, want: Option<Digest>)

  /** The published entry, the tempfiles by process, the holder of the lock, and how many times an entry was
      published. Tempfiles of killed processes stay behind. */
  datatype World = World(procs: map<nat, Proc>, published: Option<seq<Byte>>, temps: map<nat, seq<Byte>>,
                         lock: Option<nat>, publications: nat)

  datatype Action =
    | Arrive(pid: nat, want: Option<Digest>)
    | Advance(pid: nat, chunk: nat)  // one step; chunk bytes if it is a copying step
    | Fail(pid: nat)                 // an I/O error in the step it was about to make
    | Kill(pid: nat)

  function At(w: World, pid: nat, phase: Phase): World
    requires pid in w.procs
  {
    w.(procs := w.procs[pid := w.procs[pid].(phase := phase)])
  }

  /** Leave fetch: closing the lock file releases the lock. */
  function Leave(w: World, pid: nat, phase: Phase): World
    requires pid in w.procs
  {
    At(w, pid, phase).(lock := None)
  }

  predicate Matches(cfg: Config, want: Option<Digest>, content: seq<Byte>)
  {
    want == None || cfg.sha(content) == want.value
  }

  /** The next part of the source, at least one byte, appended to the tempfile. */
  function CopyChunk(src: seq<Byte>, done: seq<Byte>, chunk: nat): seq<Byte>
    requires |done| <= |src|
  {
    done + src[|done|..Min(|done| + (if chunk == 0 then 1 else chunk), |src|)]
  }

  function CopyStep(cfg: Config, w: World, pid: nat, chunk: nat): World
    requires pid in w.procs
  {
    if cfg.source == None || pid !in w.temps || |w.temps[pid]| > |cfg.source.value| then At(w, pid, Failing)
    else if |w.temps[pid]| == |cfg.source.value| then At(w, pid, Copied)
    else w.(temps := w.temps[pid := CopyChunk(cfg.source.value, w.temps[pid], chunk)])
  }

  function PublishStep(w: World, pid: nat): World
    requires pid in w.procs
  {
    if pid !in w.temps then At(w, pid, Failing)
    else At(w, pid, Returning).(published := Some(w.temps[pid]), temps := w.temps - {pid},
                                publications := w.publications + 1)
  }

  /** One step of a running call. */
  function StepProc(cfg: Config, w: World, pid: nat, chunk: nat): World
    requires pid in w.procs
  {
    var want := w.procs[pid].want;
    match w.procs[pid].phase
    case Waiting => if w.lock == None then At(w, pid, Locked).(lock := Some(pid)) else w
    case Locked =>
      if w.published == None then At(w, pid, Checking)
      else if want == None then At(w, pid, Returning)
      else At(w, pid, Hashing)
    case Hashing =>
      if w.published == None then Leave(w, pid, Raised)
      else if Matches(cfg, want, w.published.value) then At(w, pid, Returning)
      else At(w, pid, Removing)
    case Removing => At(w, pid, Checking).(published := None)
    case Checking => if !cfg.s3 && cfg.source == None then Leave(w, pid, Raised) else At(w, pid, Creating)
    case Creating => At(w, pid, Copying).(temps := w.temps[pid := []])
    case Copying => CopyStep(cfg, w, pid, chunk)
    case Copied =>
      if pid in w.temps && Matches(cfg, want, w.temps[pid]) then At(w, pid, Renaming) else At(w, pid, Failing)
    case Renaming => PublishStep(w, pid)
    case Returning => Leave(w, pid, Returned)
    case Failing => Leave(w, pid, Raised).(temps := w.temps - {pid})
    case Returned => w
    case Raised => w
  }

  /** An exception: from inside the try block it goes through the clean-up. */
  function FailProc(w: World, pid: nat): World
    requires pid in w.procs
  {
    match w.procs[pid].phase
    case Hashing => Leave(w, pid, Raised)
    case Removing => Leave(w, pid, Raised)
    case Creating => Leave(w, pid, Raised)
    case Copying => At(w, pid, Failing)
    case Copied => At(w, pid, Failing)
    case Renaming => At(w, pid, Failing)
    case _ => w
  }

  /** The kernel drops the lock of a killed process and nothing else. */
  function KillProc(w: World, pid: nat): World
  {
    w.(procs := w.procs - {pid}, lock := if w.lock == Some(pid) then None else w.lock)
  }

  function Step(cfg: Config, w: World, a: Action): World
  {
    match a
    case Arrive(pid, want) =>
      if pid in w.procs || pid in w.temps then w else w.(procs := w.procs[pid := Proc(Waiting, want)])
    case Advance(pid, chunk) => if pid in w.procs then StepProc(cfg, w, pid, chunk) else w
    case Fail(pid) => if pid in w.procs then FailProc(w, pid) else w
    case Kill(pid) => KillProc(w, pid)
  }

  /** A cache that may already hold something. */
  function Initial(entry: Option<seq<Byte>>): World
  {
    World(map[], entry, map[], None, 0)
  }

  function Run(cfg: Config, entry: Option<seq<Byte>>, acts: seq<Action>): World
  {
    if acts == [] then Initial(entry) else Step(cfg, Run(cfg, entry, acts[..|acts| - 1]), acts[|acts| - 1])
  }

  // ---- the invariant ----

  predicate InCriticalSection(p: Phase)
  {
    p != Waiting && p != Returned && p != Raised
  }

  /** What the lock holder may rely on in each phase. */
  ghost predicate Standing(cfg: Config, w: World, pid: nat)
    requires pid in w.procs
  {
    var want := w.procs[pid].want;
    match w.procs[pid].phase
    case Hashing => w.published.Some? && want.Some?
    case Removing => w.published.Some? && !Matches(cfg, want, w.published.value)
    case Checking => w.published == None
    case Creating => w.published == None
    case Copying =>
      && w.published == None && pid in w.temps
      && (cfg.source.Some? ==> w.temps[pid] <= cfg.source.value)
    case Copied => w.published == None && pid in w.temps && cfg.source == Some(w.temps[pid])
    case Renaming =>
      && w.published == None && pid in w.temps && cfg.source == Some(w.temps[pid])
      && Matches(cfg, want, w.temps[pid])
    case Failing => w.published == None
    case Returning => w.published.Some? && Matches(cfg, want, w.published.value)
    case _ => true
  }

  ghost predicate ProcOk(cfg: Config, w: World, pid: nat)
    requires pid in w.procs
  {
    (InCriticalSection(w.procs[pid].phase) <==> w.lock == Some(pid)) && Standing(cfg, w, pid)
  }

  ghost predicate Inv(cfg: Config, entry: Option<seq<Byte>>, w: World)
  {
    && (forall pid :: pid in w.procs ==> ProcOk(cfg, w, pid))
    && (w.lock.Some? ==> w.lock.value in w.procs)
    && (w.published == None || w.published == entry || w.published == cfg.source)
  }

  /** The holder moves, and nobody else has anything at stake: the others are outside the section. */
  lemma HolderMoves(cfg: Config, entry: Option<seq<Byte>>, w: World, w': World, pid: nat)
    requires Inv(cfg, entry, w) && w.lock == Some(pid)
    requires w'.procs.Keys == w.procs.Keys && ProcOk(cfg, w', pid)
    requires forall q :: q in w.procs && q != pid ==> w'.procs[q] == w.procs[q]
    requires w'.lock == None || w'.lock == Some(pid)
    requires w'.published == None || w'.published == entry || w'.published == cfg.source
    ensures Inv(cfg, entry, w')
  {
    forall q | q in w'.procs ensures ProcOk(cfg, w', q) {
      assert ProcOk(cfg, w, q);
    }
  }

  lemma CopyKeeps(cfg: Config, entry: Option<seq<Byte>>, w: World, pid: nat, chunk: nat)
    requires Inv(cfg, entry, w) && pid in w.procs && w.procs[pid].phase == Copying
    ensures Inv(cfg, entry, CopyStep(cfg, w, pid, chunk))
  {
    assert ProcOk(cfg, w, pid);
    if cfg.source.Some? && |w.temps[pid]| == |cfg.source.value| {
      assert w.temps[pid] == cfg.source.value;
    }
    HolderMoves(cfg, entry, w, CopyStep(cfg, w, pid, chunk), pid);
  }

  /** The lock is taken when nobody has it. */
  lemma LockKeeps(cfg: Config, entry: Option<seq<Byte>>, w: World, pid: nat)
    requires Inv(cfg, entry, w) && pid in w.procs && w.procs[pid].phase == Waiting && w.lock == None
    ensures Inv(cfg, entry, At(w, pid, Locked).(lock := Some(pid)))
  {
    var w' := At(w, pid, Locked).(lock := Some(pid));
    forall q | q in w'.procs ensures ProcOk(cfg, w', q) {
      assert ProcOk(cfg, w, q);
    }
  }

  predicate BeforeCopy(p: Phase)
  {
    p == Locked || p == Hashing || p == Removing || p == Checking || p == Creating
  }

  lemma LookupKeeps(cfg: Config, entry: Option<seq<Byte>>, w: World, pid: nat, chunk: nat)
    requires Inv(cfg, entry, w) && pid in w.procs && BeforeCopy(w.procs[pid].phase)
    ensures Inv(cfg, entry, StepProc(cfg, w, pid, chunk))
  {
    assert ProcOk(cfg, w, pid);
    HolderMoves(cfg, entry, w, StepProc(cfg, w, pid, chunk), pid);
  }

  predicate AfterCopy(p: Phase)
  {
    p == Copied || p == Renaming || p == Returning || p == Failing
  }

  lemma PublishKeeps(cfg: Config, entry: Option<seq<Byte>>, w: World, pid: nat, chunk: nat)
    requires Inv(cfg, entry, w) && pid in w.procs && AfterCopy(w.procs[pid].phase)
    ensures Inv(cfg, entry, StepProc(cfg, w, pid, chunk))
  {
    assert ProcOk(cfg, w, pid);
    HolderMoves(cfg, entry, w, StepProc(cfg, w, pid, chunk), pid);
  }

  lemma AdvanceKeeps(cfg: Config, entry: Option<seq<Byte>>, w: World, pid: nat, chunk: nat)
    requires Inv(cfg, entry, w) && pid in w.procs
    ensures Inv(cfg, entry, StepProc(cfg, w, pid, chunk))
  {
    var p := w.procs[pid].phase;
    if BeforeCopy(p) {
      LookupKeeps(cfg, entry, w, pid, chunk);
    } else if AfterCopy(p) {
      PublishKeeps(cfg, entry, w, pid, chunk);
    } else if p == Copying {
      CopyKeeps(cfg, entry, w, pid, chunk);
    } else if p == Waiting && w.lock == None {
      LockKeeps(cfg, entry, w, pid);
    }
  }

  lemma FailKeeps(cfg: Config, entry: Option<seq<Byte>>, w: World, pid: nat)
    requires Inv(cfg, entry, w) && pid in w.procs
    ensures Inv(cfg, entry, FailProc(w, pid))
  {
    assert ProcOk(cfg, w, pid);
    if FailProc(w, pid) != w {
      HolderMoves(cfg, entry, w, FailProc(w, pid), pid);
    }
  }

  lemma OutsidersKeep(cfg: Config, entry: Option<seq<Byte>>, w: World, a: Action)
    requires Inv(cfg, entry, w) && (a.Arrive? || a.Kill?)
    ensures Inv(cfg, entry, Step(cfg, w, a))
  {
    var w' := Step(cfg, w, a);
    forall q | q in w'.procs ensures ProcOk(cfg, w', q) {
      assert q in w.procs ==> ProcOk(cfg, w, q);
    }
  }

  lemma StepKeeps(cfg: Config, entry: Option<seq<Byte>>, w: World, a: Action)
    requires Inv(cfg, entry, w)
    ensures Inv(cfg, entry, Step(cfg, w, a))
  {
    match a
    case Advance(pid, chunk) => if pid in w.procs { AdvanceKeeps(cfg, entry, w, pid, chunk); }
    case Fail(pid) => if pid in w.procs { FailKeeps(cfg, entry, w, pid); }
    case _ => OutsidersKeep(cfg, entry, w, a);
  }

  lemma {:induction false} RunKeeps(cfg: Config, entry: Option<seq<Byte>>, acts: seq<Action>)
    ensures Inv(cfg, entry, Run(cfg, entry, acts))
  {
    if acts == [] {
    } else {
      RunKeeps(cfg, entry, acts[..|acts| - 1]);
      StepKeeps(cfg, entry, Run(cfg, entry, acts[..|acts| - 1]), acts[|acts| - 1]);
    }
  }

  // ---- main results ----

  /** In every run, killed and failing processes included: the entry is absent, what was there at first, or a
      complete copy of the source, never a torn one; and at most one process is between the lock and its
      return. */
  lemma NeverTorn(cfg: Config, entry: Option<seq<Byte>>, acts: seq<Action>)
    ensures var w := Run(cfg, entry, acts);
            && (w.published == None || w.published == entry || w.published == cfg.source)
            && forall p, q | p in w.procs && q in w.procs ::
                 InCriticalSection(w.procs[p].phase) && InCriticalSection(w.procs[q].phase) ==> p == q
  {
    RunKeeps(cfg, entry, acts);
    var w := Run(cfg, entry, acts);
    forall p | p in w.procs && InCriticalSection(w.procs[p].phase) ensures w.lock == Some(p) {
      assert ProcOk(cfg, w, p);
    }
  }

  lemma RunSnoc(cfg: Config, entry: Option<seq<Byte>>, acts: seq<Action>, a: Action)
    ensures Run(cfg, entry, acts + [a]) == Step(cfg, Run(cfg, entry, acts), a)
  {
    assert (acts + [a])[..|acts|] == acts;
  }

  /** A call returns only at a moment when the published entry is there and has the checksum it asked
      for. */
  lemma ReturnsOnlyAMatch(cfg: Config, entry: Option<seq<Byte>>, acts: seq<Action>, a: Action, pid: nat)
    requires var w, w' := Run(cfg, entry, acts), Run(cfg, entry, acts + [a]);
             pid in w'.procs && w'.procs[pid].phase == Returned
             && !(pid in w.procs && w.procs[pid].phase == Returned)
    ensures var w' := Run(cfg, entry, acts + [a]);
            w'.published.Some? && Matches(cfg, w'.procs[pid].want, w'.published.value)
  {
    RunKeeps(cfg, entry, acts);
    RunSnoc(cfg, entry, acts, a);
    var w := Run(cfg, entry, acts);
    assert pid in w.procs ==> ProcOk(cfg, w, pid);
  }

  /** Every checksum anyone gives is the source's. */
  ghost predicate AllMatching(cfg: Config, acts: seq<Action>)
  {
    forall a :: a in acts && a.Arrive? && a.want.Some? ==>
      cfg.source.Some? && a.want.value == cfg.sha(cfg.source.value)
  }

  /** Then nobody finds a reason to remove the entry. */
  ghost predicate Settled(cfg: Config, w: World)
  {
    && w.publications == (if w.published.Some? then 1 else 0)
    && (w.published.Some? ==> w.published == cfg.source)
    && forall pid :: pid in w.procs ==>
         && w.procs[pid].phase != Removing
         && (w.procs[pid].want.Some? ==>
               cfg.source.Some? && w.procs[pid].want.value == cfg.sha(cfg.source.value))
  }

  lemma AdvanceSettled(cfg: Config, w: World, pid: nat, chunk: nat)
    requires Settled(cfg, w) && pid in w.procs && ProcOk(cfg, w, pid)
    ensures Settled(cfg, StepProc(cfg, w, pid, chunk))
    ensures w.published.Some? ==> StepProc(cfg, w, pid, chunk).published == w.published
  {
  }

  lemma FailSettled(cfg: Config, w: World, pid: nat)
    requires Settled(cfg, w) && pid in w.procs
    ensures Settled(cfg, FailProc(w, pid)) && FailProc(w, pid).published == w.published
  {
  }

  lemma StepSettled(cfg: Config, w: World, a: Action)
    requires Inv(cfg, None, w) && Settled(cfg, w)
    requires AllMatching(cfg, [a])
    ensures Settled(cfg, Step(cfg, w, a))
    ensures w.published.Some? ==> Step(cfg, w, a).published == w.published
  {
    assert a in [a];
    match a
    case Advance(pid, chunk) =>
      if pid in w.procs {
        assert ProcOk(cfg, w, pid);
        AdvanceSettled(cfg, w, pid, chunk);
      }
    case Fail(pid) => if pid in w.procs { FailSettled(cfg, w, pid); }
    case _ =>
  }

  lemma {:induction false} RunSettled(cfg: Config, acts: seq<Action>)
    requires AllMatching(cfg, acts)
    ensures Settled(cfg, Run(cfg, None, acts))
  {
    if acts == [] {
    } else {
      var before, a := acts[..|acts| - 1], acts[|acts| - 1];
      assert a in acts;
      RunSettled(cfg, before);
      RunKeeps(cfg, None, before);
      StepSettled(cfg, Run(cfg, None, before), a);
    }
  }

  /** If every checksum given is the source's, an initially absent entry is published at most once, and once
      it is there it stays. */
  lemma PublishedOnce(cfg: Config, acts: seq<Action>, a: Action)
    requires AllMatching(cfg, acts + [a])
    ensures Run(cfg, None, acts + [a]).publications <= 1
    ensures Run(cfg, None, acts).published.Some? ==>
              Run(cfg, None, acts + [a]).published == Run(cfg, None, acts).published == cfg.source
  {
    assert AllMatching(cfg, acts) && AllMatching(cfg, [a]) by {
      assert forall b :: b in acts || b == a ==> b in acts + [a];
    }
    RunSettled(cfg, acts);
    RunKeeps(cfg, None, acts);
    RunSnoc(cfg, None, acts, a);
    StepSettled(cfg, Run(cfg, None, acts), a);
  }

  /** The condition is needed: whatever is published, and whoever has already been given its path, a later
      caller with a checksum it does not have removes it, four steps after getting the lock. */
  lemma WrongChecksumRemoves(cfg: Config, entry: Option<seq<Byte>>, acts: seq<Action>, pid: nat, c: Digest)
    requires var w := Run(cfg, entry, acts);
             w.lock == None && w.published.Some? && cfg.sha(w.published.value) != c
             && pid !in w.procs && pid !in w.temps
    ensures var a := Advance(pid, 1);
            Run(cfg, entry, acts + [Arrive(pid, Some(c))] + [a] + [a] + [a] + [a]).published == None
  {
    var a := Advance(pid, 1);
    var w0 := Run(cfg, entry, acts);
    var s1 := acts + [Arrive(pid, Some(c))];
    RunSnoc(cfg, entry, acts, Arrive(pid, Some(c)));
    RunSnoc(cfg, entry, s1, a);
    RunSnoc(cfg, entry, s1 + [a], a);
    RunSnoc(cfg, entry, s1 + [a] + [a], a);
    RunSnoc(cfg, entry, s1 + [a] + [a] + [a], a);
    var w1 := Step(cfg, w0, Arrive(pid, Some(c)));
    var w2 := Step(cfg, w1, a);
    assert w2 == At(w1, pid, Locked).(lock := Some(pid));
    var w3 := Step(cfg, w2, a);
    assert w3 == At(w2, pid, Hashing);
    var w4 := Step(cfg, w3, a);
    assert w4 == At(w3, pid, Removing);
  }

  const ONE_BYTE: Config := Config(Some([1]), false, s => |s|)
  const SERVED: seq<Action> := [Arrive(0, None)] + [Advance(0, 1)] + [Advance(0, 1)] + [Advance(0, 1)]

  /** A caller has been given the path of a good copy; then another asks for a checksum it does not have. */
  lemma GivenPathCanVanish()
    ensures var w := Run(ONE_BYTE, Some([1]), SERVED);
            0 in w.procs && w.procs[0].phase == Returned && w.published == ONE_BYTE.source
    ensures var a := Advance(1, 1);
            Run(ONE_BYTE, Some([1]), SERVED + [Arrive(1, Some(2))] + [a] + [a] + [a] + [a]).published == None
  {
    var cfg, entry, b: Action := ONE_BYTE, Some([1]), Advance(0, 1);
    var start := [Arrive(0, None)];
    assert start == [] + start;
    RunSnoc(cfg, entry, [], Arrive(0, None));
    RunSnoc(cfg, entry, start, b);
    RunSnoc(cfg, entry, start + [b], b);
    RunSnoc(cfg, entry, start + [b] + [b], b);
    var w1 := Step(cfg, Initial(entry), Arrive(0, None));
    var w2 := Step(cfg, w1, b);
    assert w2 == At(w1, 0, Locked).(lock := Some(0));
    assert Step(cfg, w2, b) == At(w2, 0, Returning);
    WrongChecksumRemoves(cfg, entry, SERVED, 1, 2);
  }
}
