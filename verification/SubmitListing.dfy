/** What a submit's ledger and report list, unit by unit. */
module SubmitListing {
  import opened Bytes
  import opened SubmitReport

  /** One row for every accepted job that printed an id, in the order of the units. */
  ghost predicate ListsJobs(tags: seq<string>, results: seq<Sbatch>, jobs: seq<JobRow>)
    requires |tags| == |results|
  {
    if results == [] then jobs == []
    else match results[0]
      case Accepted(Some(j)) =>
        jobs != [] && jobs[0] == JobRow(tags[0], Some(j), 0) && ListsJobs(tags[1..], results[1..], jobs[1..])
      case _ => ListsJobs(tags[1..], results[1..], jobs)
  }

  /** One entry for every refusal, with the end of what it printed, at most 500 characters. */
  ghost predicate ListsFailures(tags: seq<string>, results: seq<Sbatch>, failures: seq<Failure>)
    requires |tags| == |results|
  {
    if results == [] then failures == []
    else match results[0]
      case Refused(rc, stderr) =>
        && failures != [] && failures[0].tag == tags[0] && failures[0].rc == rc
        && |failures[0].tail| == Min(|stderr|, 500) && failures[0].tail == stderr[|stderr| - |failures[0].tail|..]
        && ListsFailures(tags[1..], results[1..], failures[1..])
      case Accepted(_) => ListsFailures(tags[1..], results[1..], failures)
  }

  lemma {:induction false} SubmittedFirst(row: JobRow, rows: seq<JobRow>)
    ensures Submitted([row] + rows) == (if row.id.Some? then [row] else []) + Submitted(rows)
  {
    var all, n := [row] + rows, |rows|;
    if rows == [] {
      assert all == [row] && all[..0] == [];
    } else {
      assert all[..n] == [row] + rows[..n - 1];
      SubmittedFirst(row, rows[..n - 1]);
    }
  }

  lemma {:induction false} JobsListed(tags: seq<string>, results: seq<Sbatch>)
    requires |tags| == |results|
    ensures ListsJobs(tags, results, Submitted(Rows(tags, results)))
  {
    if results == [] {
    } else {
      var rows := Rows(tags, results);
      assert rows == [rows[0]] + Rows(tags[1..], results[1..]);
      SubmittedFirst(rows[0], Rows(tags[1..], results[1..]));
      JobsListed(tags[1..], results[1..]);
      var rest := Submitted(Rows(tags[1..], results[1..]));
      assert ([rows[0]] + rest)[1..] == rest == [] + rest;
    }
  }

  function FirstFailure(tag: string, result: Sbatch): seq<Failure>
  {
    match result
    case Accepted(_) => []
    case Refused(rc, stderr) => [Failure(tag, rc, Tail(stderr))]
  }

  lemma {:induction false} FailuresFirst(tags: seq<string>, results: seq<Sbatch>)
    requires |tags| == |results| > 0
    ensures Failures(tags, results) == FirstFailure(tags[0], results[0]) + Failures(tags[1..], results[1..])
  {
    var n := |results| - 1;
    if n == 0 {
    } else {
      FailuresFirst(tags[..n], results[..n]);
      assert tags[..n][1..] == tags[1..][..n - 1] && results[..n][1..] == results[1..][..n - 1];
    }
  }

  lemma {:induction false} FailuresListed(tags: seq<string>, results: seq<Sbatch>)
    requires |tags| == |results|
    ensures ListsFailures(tags, results, Failures(tags, results))
  {
    if results == [] {
    } else {
      FailuresFirst(tags, results);
      FailuresListed(tags[1..], results[1..]);
      var first, rest := FirstFailure(tags[0], results[0]), Failures(tags[1..], results[1..]);
      assert first != [] ==> (first + rest)[1..] == rest;
      assert first == [] ==> first + rest == rest;
    }
  }

  /** A unit's tag and the exit code reported for it. */
  type Outcome = (string, int)

  function FailedRows(rows: seq<JobRow>): seq<Outcome>
  {
    if rows == [] then []
    else FailedRows(rows[..|rows| - 1]) + if rows[|rows| - 1].rc != 0 then [(rows[|rows| - 1].tag, rows[|rows| - 1].rc)]
                                         else []
  }

  function Failed(failures: seq<Failure>): (os: seq<Outcome>)
    ensures |os| == |failures|
  {
    seq(|failures|, i requires 0 <= i < |failures| => (failures[i].tag, failures[i].rc))
  }

  /** The two lists of a report agree: the rows with a non-zero exit code are, in order, the failures, if a refusal has
      such a code; and every unit has its row. */
  lemma {:induction false} ReportAgrees(tags: seq<string>, results: seq<Sbatch>)
    requires |tags| == |results| && forall b :: b in results && b.Refused? ==> b.rc != 0
    ensures FailedRows(Rows(tags, results)) == Failed(Failures(tags, results))
    ensures forall i :: 0 <= i < |tags| ==> Rows(tags, results)[i].tag == tags[i]
  {
    if results == [] {
    } else {
      var n := |results| - 1;
      ReportAgrees(tags[..n], results[..n]);
      assert Rows(tags, results)[..n] == Rows(tags[..n], results[..n]);
      assert results[n] in results;
    }
  }
}
