/** create_jobfile's auto-launch report and what cluster_run decides from it: keep the placeholder, delete the
    claim, or record the batch. */
module SubmitReport {
  import opened Bytes

  /** One sbatch call: accepted with whatever id it printed, or refused. */
  datatype Sbatch = Accepted(id: Option<nat>) | Refused(rc: int, stderr: string)

  datatype JobRow = JobRow(tag: string, id: Option<nat>, rc: int)

  datatype Failure = Failure(tag: string, rc: int, tail: string)

  /** OtherError is an error reported before anything was submitted. */
  datatype Status = Ok | SmokeFailed | SubmitFailed | OtherError

  datatype Report = Report(status: Status, jobs: seq<JobRow>, failures: seq<Failure>)

  /** stderr is cut to its last 500 characters. */
  function Tail(s: string): string
  {
    if |s| > 500 then s[|s| - 500..] else s
  }

  /** One row per unit, in order. */
  function Rows(tags: seq<string>, results: seq<Sbatch>): (rows: seq<JobRow>)
    requires |tags| == |results|
    ensures |rows| == |results|
  {
    seq(|results|, i requires 0 <= i < |results| =>
      match results[i]
      case Accepted(id) => JobRow(tags[i], id, 0)
      case Refused(rc, _) => JobRow(tags[i], None, rc))
  }

  /** The refused units, in order. */
  function Failures(tags: seq<string>, results: seq<Sbatch>): seq<Failure>
    requires |tags| == |results|
  {
    if results == [] then [] else
    var n := |results| - 1;
    Failures(tags[..n], results[..n])
    + match results[n]
      case Accepted(_) => []
      case Refused(rc, stderr) => [Failure(tags[n], rc, Tail(stderr))]
  }

  /** The rows with a job id. */
  function Submitted(rows: seq<JobRow>): seq<JobRow>
  {
    if rows == [] then [] else
    var n := |rows| - 1;
    Submitted(rows[..n]) + if rows[n].id.Some? then [rows[n]] else []
  }

  /** The report of a launch whose smoke test returned smokeRc. */
  function Launched(smokeRc: int, tags: seq<string>, results: seq<Sbatch>): Report
    requires |tags| == |results|
  {
    if smokeRc != 0 then Report(SmokeFailed, [], [])
    else
      var failures := Failures(tags, results);
      Report(if failures == [] then Ok else SubmitFailed, Rows(tags, results), failures)
  }

  /** The report of a create_jobfile: of an error before the smoke test, or of the launch. */
  function Reported(early: bool, smokeRc: int, tags: seq<string>, results: seq<Sbatch>): Report
    requires |tags| == |results|
  {
    if early then Report(OtherError, [], []) else Launched(smokeRc, tags, results)
  }

  /** What _record_submit does with the claimed placeholder. */
  datatype Decision = Keep | Delete | Record(jobs: seq<JobRow>, partial: bool)

  function Decide(report: Option<Report>): Decision
  {
    match report
    case None => Keep
    case Some(r) =>
      var submitted := Submitted(r.jobs);
      if r.status != Ok && !(r.status == SubmitFailed && submitted != []) then Delete
      else Record(submitted, r.status != Ok)
  }

  // ---- the program ----

  /** submit_all. */
  method SubmitAll(tags: seq<string>, results: seq<Sbatch>) returns (jobs: seq<JobRow>, failures: seq<Failure>)
    requires |tags| == |results|
    ensures jobs == Rows(tags, results) && failures == Failures(tags, results)
  {
    jobs, failures := [], [];
    for i := 0 to |results|
      invariant jobs == Rows(tags[..i], results[..i]) && failures == Failures(tags[..i], results[..i])
    {
      assert results[..i + 1][..i] == results[..i] && tags[..i + 1][..i] == tags[..i];
      match results[i] {
        case Accepted(id) => jobs := jobs + [JobRow(tags[i], id, 0)];
        case Refused(rc, stderr) =>
          jobs := jobs + [JobRow(tags[i], None, rc)];
          failures := failures + [Failure(tags[i], rc, Tail(stderr))];
      }
    }
    assert results[..|results|] == results && tags[..|tags|] == tags;
  }

  /** The auto-launch part of _run: smoke gate, submission, report; the exit code is 0 only if all went. */
  method AutoLaunch(smokeRc: int, tags: seq<string>, results: seq<Sbatch>) returns (report: Report, rc: int)
    requires |tags| == |results|
    ensures report == Launched(smokeRc, tags, results) && (rc == 0 <==> report.status == Ok)
  {
    report := Report(Ok, [], []);
    if smokeRc != 0 {
      report := report.(status := SmokeFailed);
      return report, 1;
    }
    var jobs, failures := SubmitAll(tags, results);
    report := report.(jobs := jobs, failures := failures);
    if failures != [] {
      report := report.(status := SubmitFailed);
    }
    rc := if failures != [] then 1 else 0;
  }

  // ---- what the decision is worth ----

  predicate Refusal(b: Sbatch)
  {
    b.Refused?
  }

  predicate Named(b: Sbatch)
  {
    b.Accepted? && b.id.Some?
  }

  predicate Nameless(b: Sbatch)
  {
    b.Accepted? && b.id.None?
  }

  lemma {:induction false} FailuresCount(tags: seq<string>, results: seq<Sbatch>)
    requires |tags| == |results|
    ensures |Failures(tags, results)| == Count(results, Refusal)
  {
    if results == [] {
    } else {
      FailuresCount(tags[..|tags| - 1], results[..|results| - 1]);
    }
  }

  /** The rows that carry an id are those of the accepted jobs that printed one. */
  lemma {:induction false} SubmittedCount(tags: seq<string>, results: seq<Sbatch>)
    requires |tags| == |results|
    ensures |Submitted(Rows(tags, results))| == Count(results, Named)
  {
    if results == [] {
    } else {
      var n := |results| - 1;
      SubmittedCount(tags[..n], results[..n]);
      assert Rows(tags, results)[..n] == Rows(tags[..n], results[..n]);
    }
  }

  /** The claim is deleted exactly after an error before the smoke test, after a failed smoke test, or when some
      sbatch failed and none printed an id. */
  lemma DeletesExactly(early: bool, smokeRc: int, tags: seq<string>, results: seq<Sbatch>)
    requires |tags| == |results|
    ensures Decide(Some(Reported(early, smokeRc, tags, results))) == Delete
            <==> early || smokeRc != 0
                 || ((exists b :: b in results && Refusal(b)) && !exists b :: b in results && Named(b))
  {
    FailuresCount(tags, results);
    SubmittedCount(tags, results);
    CountNone(results, Refusal);
    CountNone(results, Named);
  }

  /** So a claim with queued jobs is deleted only when some sbatch failed and no accepted one printed an id,
      which is impossible if every accepted sbatch prints one. */
  lemma DeletesQueuedJobs(tags: seq<string>, results: seq<Sbatch>)
    requires |tags| == |results| && (exists b :: b in results && b.Accepted?)
    ensures Decide(Some(Launched(0, tags, results))) == Delete
            <==> (exists b :: b in results && Refusal(b)) && (forall b :: b in results && b.Accepted? ==> Nameless(b))
  {
    DeletesExactly(false, 0, tags, results);
  }

  ghost predicate Lists(jobs: seq<JobRow>, id: nat)
  {
    exists row :: row in jobs && row.id == Some(id)
  }

  lemma ListsSnoc(jobs: seq<JobRow>, row: JobRow, id: nat)
    ensures Lists(jobs + [row], id) <==> Lists(jobs, id) || row.id == Some(id)
  {
    assert row in jobs + [row];
    assert forall r :: r in jobs ==> r in jobs + [row];
  }

  /** A recorded batch lists exactly the accepted jobs that printed an id. */
  lemma {:induction false} RecordedJobs(tags: seq<string>, results: seq<Sbatch>, id: nat)
    requires |tags| == |results|
    ensures Lists(Submitted(Rows(tags, results)), id) <==> Accepted(Some(id)) in results
  {
    if results == [] {
    } else {
      var n, rows := |results| - 1, Rows(tags, results);
      RecordedJobs(tags[..n], results[..n], id);
      assert rows[..n] == Rows(tags[..n], results[..n]);
      ListsSnoc(Submitted(rows[..n]), rows[n], id);
      assert Submitted(rows[..n]) + [] == Submitted(rows[..n]);
      assert results == results[..n] + [results[n]];
    }
  }
}
