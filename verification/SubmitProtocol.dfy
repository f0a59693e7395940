/** Batch submission as a protocol: any number of submits from any number of checkouts to one cluster, each
    local process and each remote create_jobfile interruptible between any two of its steps. */
module SubmitProtocol {
  import opened Bytes
  import opened SubmitReport

  // ---- the world ----

  /** A ledger file: just created or just truncated, the "submitting" placeholder, or the recorded batch. */
  datatype Content = Blank | Placeholder | Recorded(jobs: seq<JobRow>, partial: bool)

  /** owner is the submit that created the file. */
  datatype Ledger = Ledger(owner: nat, content: Content)

  datatype Phase =
    | Waiting                                          // for the checkout's submit lock
    | Claiming                                         // about to create the ledger with O_EXCL
    | Writing                                          // about to write the placeholder into it
    | MakingDir                                        // about to mkdir the run dir
    | Preparing                                        // staging, sync, build, snapshot
    | Launching                                        // about to start create_jobfile over ssh
    | Awaiting                                         // for its report
    | Failing                                          // about to remove the claim and re-raise
    | Deciding(report: Option<Report>)                 // lock released
    | Rewriting(jobs: seq<JobRow>, partial: bool)      // ledger truncated, about to be written
    | Kept                                             // ended; the placeholder stays
    | Logged                                           // ended; the batch is recorded
    | Dropped                                          // ended; no ledger of this submit

  datatype Local = Local(checkout: nat, batch: nat, tags: seq<string>, phase: Phase, alive: bool)

  datatype RemotePhase = Smoking | Submitting | Finished(report: Report) | Dead

  /** create_jobfile on the cluster: it outlives the ssh that started it. */
  datatype Remote = Remote(tags: seq<string>, results: seq<Sbatch>, phase: RemotePhase)

  type Key = (nat, nat)  // checkout, batch

  /** dirs: the remote run dirs by batch id, with the submit that made each. */
  datatype World = World(locals: map<nat, Local>, locks: map<nat, nat>, ledgers: map<Key, Ledger>,
                         dirs: map<nat, nat>, remotes: map<nat, Remote>)

  const EMPTY: World := World(map[], map[], map[], map[], map[])

  /** What the cluster does next for a submit. */
  datatype RemoteEvent = Smoke(rc: int) | Submit(result: Sbatch) | Complain | Die

  /** done: the remote side of a step took effect; ok: the local side saw it succeed. */
  datatype Action =
    | Arrive(id: nat, checkout: nat, batch: nat, tags: seq<string>)
    | Advance(id: nat, done: bool, ok: bool)
    | OnCluster(id: nat, event: RemoteEvent)
    | Kill(id: nat)

  function KeyOf(s: Local): Key
  {
    (s.checkout, s.batch)
  }

  /** No submit moves to another checkout or batch. */
  ghost predicate SameKeys(w: World, w': World)
  {
    forall id :: id in w.locals ==> id in w'.locals && KeyOf(w'.locals[id]) == KeyOf(w.locals[id])
  }

  // ---- steps of a local process ----

  function Goto(w: World, id: nat, phase: Phase): World
    requires id in w.locals
  {
    w.(locals := w.locals[id := w.locals[id].(phase := phase)])
  }

  function Unlock(w: World, id: nat): World
    requires id in w.locals
  {
    w.(locks := w.locks - {w.locals[id].checkout})
  }

  function SetLedger(w: World, id: nat, content: Content): World
    requires id in w.locals
  {
    w.(ledgers := w.ledgers[KeyOf(w.locals[id]) := Ledger(id, content)])
  }

  function RemoveLedger(w: World, id: nat): World
    requires id in w.locals
  {
    w.(ledgers := w.ledgers - {KeyOf(w.locals[id])})
  }

  function ClaimStep(w: World, id: nat): (w': World)
    requires id in w.locals
    ensures SameKeys(w, w')
  {
    if KeyOf(w.locals[id]) in w.ledgers then Unlock(Goto(w, id, Dropped), id)
    else SetLedger(Goto(w, id, Writing), id, Blank)
  }

  /** Plain mkdir: an existing run dir fails; and a new one may be made although ssh reports failure. */
  function MkDirStep(w: World, id: nat, done: bool, ok: bool): (w': World)
    requires id in w.locals
    ensures SameKeys(w, w')
  {
    var b := w.locals[id].batch;
    if b in w.dirs || !done then Goto(w, id, Failing)
    else Goto(w, id, if ok then Preparing else Failing).(dirs := w.dirs[b := id])
  }

  function LaunchStep(w: World, id: nat, done: bool): (w': World)
    requires id in w.locals
    ensures SameKeys(w, w')
  {
    var awaiting := Goto(w, id, Awaiting);
    if done then awaiting.(remotes := w.remotes[id := Remote(w.locals[id].tags, [], Smoking)]) else awaiting
  }

  /** ssh returns with the report of a finished create_jobfile, or with none whatever became of it. */
  function AwaitStep(w: World, id: nat, ok: bool): (w': World)
    requires id in w.locals
    ensures SameKeys(w, w')
  {
    if !ok then Unlock(Goto(w, id, Deciding(None)), id)
    else if id in w.remotes && w.remotes[id].phase.Finished?
    then Unlock(Goto(w, id, Deciding(Some(w.remotes[id].phase.report))), id)
    else w
  }

  /** _record_submit. save_ledger opens the file for writing, which truncates it, and then writes it. */
  function DecideStep(w: World, id: nat, report: Option<Report>): (w': World)
    requires id in w.locals
    ensures SameKeys(w, w')
  {
    match Decide(report)
    case Keep => Goto(w, id, Kept)
    case Delete => RemoveLedger(Goto(w, id, Dropped), id)
    case Record(jobs, partial) => SetLedger(Goto(w, id, Rewriting(jobs, partial)), id, Blank)
  }

  function LocalStep(w: World, id: nat, done: bool, ok: bool): (w': World)
    requires id in w.locals
    ensures SameKeys(w, w')
  {
    var s := w.locals[id];
    match s.phase
    case Waiting =>
      if s.checkout in w.locks then w else Goto(w, id, Claiming).(locks := w.locks[s.checkout := id])
    case Claiming => ClaimStep(w, id)
    case Writing => SetLedger(Goto(w, id, MakingDir), id, Placeholder)
    case MakingDir => MkDirStep(w, id, done, ok)
    case Preparing => Goto(w, id, if ok then Launching else Failing)
    case Launching => LaunchStep(w, id, done)
    case Awaiting => AwaitStep(w, id, ok)
    case Failing => Unlock(RemoveLedger(Goto(w, id, Dropped), id), id)
    case Deciding(report) => DecideStep(w, id, report)
    case Rewriting(jobs, partial) => SetLedger(Goto(w, id, Logged), id, Recorded(jobs, partial))
    case _ => w
  }

  // ---- steps of a remote create_jobfile ----

  function RemoteStep(r: Remote, e: RemoteEvent): Remote
  {
    match e
    case Die => if r.phase.Finished? then r else r.(phase := Dead)
    case Complain => if r.phase == Smoking then r.(phase := Finished(Report(OtherError, [], []))) else r
    case Smoke(rc) =>
      if r.phase != Smoking then r
      else if rc != 0 then r.(phase := Finished(Report(SmokeFailed, [], [])))
      else Submitted(r.(phase := Submitting))
    case Submit(result) =>
      if r.phase != Submitting || |r.results| >= |r.tags| then r
      else Submitted(r.(results := r.results + [result]))
  }

  /** The report is written once every unit has been submitted. */
  function Submitted(r: Remote): Remote
  {
    if |r.results| == |r.tags| then r.(phase := Finished(Launched(0, r.tags, r.results))) else r
  }

  // ---- any step ----

  /** A killed process loses its lock; its files stay as they are. */
  function KillStep(w: World, id: nat): World
    requires id in w.locals
  {
    var s := w.locals[id];
    var w := w.(locals := w.locals[id := s.(alive := false)]);
    if s.checkout in w.locks && w.locks[s.checkout] == id then w.(locks := w.locks - {s.checkout}) else w
  }

  function Step(w: World, a: Action): World
  {
    match a
    case Arrive(id, checkout, batch, tags) =>
      if id in w.locals then w
      else w.(locals := w.locals[id := Local(checkout, batch, tags, Waiting, true)])
    case Advance(id, done, ok) =>
      if id in w.locals && w.locals[id].alive then LocalStep(w, id, done, ok) else w
    case OnCluster(id, e) =>
      if id in w.remotes then w.(remotes := w.remotes[id := RemoteStep(w.remotes[id], e)]) else w
    case Kill(id) => if id in w.locals then KillStep(w, id) else w
  }

  function Run(acts: seq<Action>): World
  {
    if acts == [] then EMPTY else Step(Run(acts[..|acts| - 1]), acts[|acts| - 1])
  }

  // ---- the invariant ----

  /** Under the submit lock. */
  predicate Locking(p: Phase)
  {
    p == Claiming || p == Writing || p == MakingDir || p == Preparing || p == Launching || p == Awaiting || p == Failing
  }

  /** The ledger file exists and is this submit's. */
  predicate Owns(p: Phase)
  {
    !(p == Waiting || p == Claiming || p == Dropped)
  }

  /** The run dir exists and is this submit's. */
  predicate Proceeds(p: Phase)
  {
    p == Preparing || p == Launching || p == Awaiting || p.Deciding? || p.Rewriting? || p == Kept || p == Logged
  }

  ghost predicate ContentOk(p: Phase, c: Content)
  {
    match p
    case Writing => c == Blank
    case Rewriting(_, _) => c == Blank
    case Logged => c.Recorded?
    case _ => c == Placeholder
  }

  /** What a finished create_jobfile reported about what it did. */
  ghost predicate Truthful(r: Remote)
  {
    && |r.results| <= |r.tags|
    && (r.phase == Smoking ==> r.results == [])
    && (r.phase.Finished? ==>
          || (r.results == [] && r.phase.report.jobs == [] && r.phase.report.status in {SmokeFailed, OtherError})
          || (|r.results| == |r.tags| && r.phase.report == Launched(0, r.tags, r.results)))
  }

  /** How far a submit with a remote create_jobfile can be, and what it knows of it. */
  ghost predicate Informed(p: Phase, r: Remote)
  {
    match p
    case Awaiting => true
    case Kept => true
    case Deciding(report) => report.Some? ==> r.phase == Finished(report.value)
    case Rewriting(jobs, partial) => r.phase.Finished? && Decide(Some(r.phase.report)) == Record(jobs, partial)
    case Logged => r.phase.Finished? && Decide(Some(r.phase.report)).Record?
    case Dropped => r.phase.Finished? && Decide(Some(r.phase.report)) == Delete
    case _ => false
  }

  /** The recorded ledger says what the report said. */
  ghost predicate Faithful(c: Content, r: Remote)
  {
    r.phase.Finished? &&
    match Decide(Some(r.phase.report))
    case Record(jobs, partial) => c == Recorded(jobs, partial)
    case _ => false
  }

  ghost predicate LocalOk(w: World, id: nat)
    requires id in w.locals
  {
    var s := w.locals[id];
    && (s.alive && Locking(s.phase) ==> s.checkout in w.locks && w.locks[s.checkout] == id)
    && (Owns(s.phase) ==> KeyOf(s) in w.ledgers && w.ledgers[KeyOf(s)].owner == id
                          && ContentOk(s.phase, w.ledgers[KeyOf(s)].content))
    && (Proceeds(s.phase) ==> s.batch in w.dirs && w.dirs[s.batch] == id)
    && (id in w.remotes ==> Truthful(w.remotes[id]) && Informed(s.phase, w.remotes[id]))
    && ((s.phase.Deciding? && s.phase.report.Some?) || s.phase.Rewriting? || s.phase == Logged ==> id in w.remotes)
    && (s.phase == Logged ==> Faithful(w.ledgers[KeyOf(s)].content, w.remotes[id]))
  }

  ghost predicate LockOk(w: World, checkout: nat)
    requires checkout in w.locks
  {
    var id := w.locks[checkout];
    id in w.locals && w.locals[id].alive && Locking(w.locals[id].phase) && w.locals[id].checkout == checkout
  }

  ghost predicate LedgerOk(w: World, key: Key)
    requires key in w.ledgers
  {
    var id := w.ledgers[key].owner;
    id in w.locals && Owns(w.locals[id].phase) && KeyOf(w.locals[id]) == key
  }

  ghost predicate Inv(w: World)
  {
    && (forall id :: id in w.locals ==> LocalOk(w, id))
    && (forall c :: c in w.locks ==> LockOk(w, c))
    && (forall key :: key in w.ledgers ==> LedgerOk(w, key))
    && (forall id :: id in w.remotes ==> id in w.locals)
    && (forall b :: b in w.dirs ==> w.dirs[b] in w.locals)
  }
}
