/** Which records the idle filter removes, stated on the whole trace, and the laws of that removal. */
module IdleSpec {
  import opened Bytes
  import opened RawFormat

  // ---- the declarative filter ----

  const HLT_OPCODE: Byte := 0xF4

  /** The loose HLT test: one byte, 0xF4. */
  predicate IsHlt(f: Frame)
  {
    f.rec.insn == [HLT_OPCODE]
  }

  predicate IsUser(f: Frame)
  {
    f.rec.privilege == 0
  }

  /** A user instruction other than HLT: a genuine wake-up. */
  predicate IsWake(f: Frame)
  {
    IsUser(f) && !IsHlt(f)
  }

  /** h and h2 are consecutive HLTs with no user instruction strictly between. */
  ghost predicate IdleRun(fs: seq<Frame>, h: nat, h2: nat)
  {
    && h < h2 < |fs| && IsHlt(fs[h]) && IsHlt(fs[h2])
    && forall k :: h < k < h2 ==> !IsHlt(fs[k]) && !IsUser(fs[k])
  }

  /** Record i is inside an idle run: from one HLT up to, not including, the next. */
  ghost predicate Idle(fs: seq<Frame>, i: nat)
  {
    exists h: nat, h2: nat :: h <= i < h2 && IdleRun(fs, h, h2)
  }

  /** Those of the first n records that are (or are not) idle, in order. */
  ghost function Part(fs: seq<Frame>, n: nat, idle: bool): seq<Frame>
    requires n <= |fs|
  {
    if n == 0 then []
    else Part(fs, n - 1, idle) + if Idle(fs, n - 1) == idle then [fs[n - 1]] else []
  }

  ghost function Filtered(fs: seq<Frame>): seq<Frame>
  {
    Part(fs, |fs|, false)
  }

  ghost function Removed(fs: seq<Frame>): seq<Frame>
  {
    Part(fs, |fs|, true)
  }

  // ---- one record at a time ----

  /** The HLT a buffered candidate run starts at, if the filter is in one after fs. */
  function Candidate(fs: seq<Frame>): (c: Option<nat>)
    ensures c.Some? ==> c.value < |fs|
  {
    if fs == [] then None else
    var f, n := fs[|fs| - 1], |fs| - 1;
    if IsHlt(f) then Some(n) else if IsUser(f) then None else Candidate(fs[..n])
  }

  /** How many records have been decided. */
  function Cut(fs: seq<Frame>): (n: nat)
    ensures n <= |fs|
  {
    match Candidate(fs) case Some(h) => h case None => |fs|
  }

  ghost function Settled(fs: seq<Frame>): seq<Frame>
  {
    Part(fs, Cut(fs), false)
  }

  ghost function Dropped(fs: seq<Frame>): seq<Frame>
  {
    Part(fs, Cut(fs), true)
  }

  /** A candidate starts at a HLT and holds only kernel records after it. */
  lemma {:induction false} CandidateStart(fs: seq<Frame>)
    requires Candidate(fs).Some?
    ensures var h := Candidate(fs).value;
            IsHlt(fs[h]) && forall k :: h < k < |fs| ==> !IsHlt(fs[k]) && !IsUser(fs[k])
  {
    var n := |fs| - 1;
    if !IsHlt(fs[n]) {
      CandidateStart(fs[..n]);
    }
  }

  /** No candidate: every HLT is followed by a user record. */
  lemma {:induction false} CandidateNone(fs: seq<Frame>, h: nat)
    requires Candidate(fs) == None && h < |fs| && IsHlt(fs[h])
    ensures exists k :: h < k < |fs| && IsUser(fs[k])
  {
    var n := |fs| - 1;
    if !IsUser(fs[n]) {
      CandidateNone(fs[..n], h);
      var k :| h < k < n && IsUser(fs[..n][k]);
      assert IsUser(fs[k]);
    }
  }

  /** The record f ends an idle run that starts at h exactly when f is a HLT and h the candidate. */
  lemma RunEndsHere(fs: seq<Frame>, f: Frame, h: nat)
    ensures IdleRun(fs + [f], h, |fs|) <==> IsHlt(f) && Candidate(fs) == Some(h)
  {
    var all, n := fs + [f], |fs|;
    if IdleRun(all, h, n) {
      forall k | h < k < n ensures !IsHlt(fs[k]) && !IsUser(fs[k]) {
        assert all[k] == fs[k];
      }
      if Candidate(fs) == None {
        CandidateNone(fs, h);
      } else {
        CandidateStart(fs);
      }
    }
    if IsHlt(f) && Candidate(fs) == Some(h) {
      CandidateStart(fs);
    }
  }

  lemma RunEndedBefore(fs: seq<Frame>, f: Frame, h: nat, h2: nat)
    requires h2 < |fs|
    ensures IdleRun(fs + [f], h, h2) <==> IdleRun(fs, h, h2)
  {
    var all := fs + [f];
    assert forall k :: 0 <= k < |fs| ==> all[k] == fs[k];
  }

  /** One more record makes idle the candidate run it ends, and changes nothing else. */
  lemma IdleSnoc(fs: seq<Frame>, f: Frame, i: nat)
    ensures Idle(fs + [f], i)
            <==> Idle(fs, i) || (i < |fs| && IsHlt(f) && Candidate(fs).Some? && Candidate(fs).value <= i)
  {
    var all := fs + [f];
    if Idle(all, i) {
      var h: nat, h2: nat :| h <= i < h2 && IdleRun(all, h, h2);
      if h2 == |fs| {
        RunEndsHere(fs, f, h);
      } else {
        RunEndedBefore(fs, f, h, h2);
      }
    }
    if Idle(fs, i) {
      var h: nat, h2: nat :| h <= i < h2 && IdleRun(fs, h, h2);
      RunEndedBefore(fs, f, h, h2);
    }
    if i < |fs| && IsHlt(f) && Candidate(fs).Some? && Candidate(fs).value <= i {
      RunEndsHere(fs, f, Candidate(fs).value);
      assert IdleRun(all, Candidate(fs).value, |fs|);
    }
  }

  /** The newest record and the candidate run are not idle yet. */
  lemma NotIdleYet(fs: seq<Frame>, i: nat)
    requires Cut(fs) <= i
    ensures !Idle(fs, i)
  {
    if Idle(fs, i) {
      var h: nat, h2: nat :| h <= i < h2 && IdleRun(fs, h, h2);
      if Candidate(fs).Some? {
        CandidateStart(fs);
      }
    }
  }

  /** Part depends only on which records are idle. */
  lemma {:induction false} PartSame(fs: seq<Frame>, gs: seq<Frame>, n: nat, idle: bool)
    requires n <= |fs| && n <= |gs| && fs[..n] == gs[..n]
    requires forall i :: 0 <= i < n ==> Idle(fs, i) == Idle(gs, i)
    ensures Part(fs, n, idle) == Part(gs, n, idle)
  {
    if n == 0 {
    } else {
      assert fs[..n][n - 1] == gs[..n][n - 1];
      assert fs[..n - 1] == fs[..n][..n - 1] && gs[..n - 1] == gs[..n][..n - 1];
      PartSame(fs, gs, n - 1, idle);
    }
  }

  /** A stretch of records that are all idle, or all not. */
  lemma {:induction false} PartRun(fs: seq<Frame>, a: nat, b: nat, idle: bool)
    requires a <= b <= |fs|
    requires forall i :: a <= i < b ==> Idle(fs, i) == idle
    ensures Part(fs, b, idle) == Part(fs, a, idle) + fs[a..b]
    ensures Part(fs, b, !idle) == Part(fs, a, !idle)
    decreases b
  {
    if a >= b {
    } else {
      PartRun(fs, a, b - 1, idle);
      assert fs[a..b] == fs[a..b - 1] + [fs[b - 1]];
    }
  }

  /** Whatever is not decided yet would be kept if the trace ended here. */
  lemma FilteredNow(fs: seq<Frame>)
    ensures Filtered(fs) == Settled(fs) + fs[Cut(fs)..]
    ensures Removed(fs) == Dropped(fs)
  {
    forall i | Cut(fs) <= i < |fs| ensures Idle(fs, i) == false {
      NotIdleYet(fs, i);
    }
    PartRun(fs, Cut(fs), |fs|, false);
    assert fs[Cut(fs)..|fs|] == fs[Cut(fs)..];
  }

  /** What the next record does when it ends no idle run: everything decided stays, and unless it is
      buffered the buffer and the record itself are kept. */
  lemma KeepSnoc(fs: seq<Frame>, f: Frame)
    requires !IsHlt(f) || Candidate(fs) == None
    ensures var all := fs + [f];
            && Cut(fs) <= Cut(all)
            && Settled(all) == Settled(fs) + all[Cut(fs)..Cut(all)]
            && Dropped(all) == Dropped(fs)
  {
    var all := fs + [f];
    assert all[..|fs|] == fs;
    forall i | 0 <= i <= |fs| ensures Idle(all, i) == Idle(fs, i) && (Cut(fs) <= i ==> !Idle(fs, i)) {
      IdleSnoc(fs, f, i);
      if Cut(fs) <= i {
        NotIdleYet(fs, i);
      }
    }
    assert all[..Cut(fs)] == fs[..Cut(fs)];
    PartSame(all, fs, Cut(fs), false);
    PartSame(all, fs, Cut(fs), true);
    PartRun(all, Cut(fs), Cut(all), false);
  }

  /** What a HLT that ends an idle run makes of the records before it. */
  lemma DropFlags(fs: seq<Frame>, f: Frame)
    requires IsHlt(f) && Candidate(fs).Some?
    ensures forall i :: 0 <= i < |fs| ==> Idle(fs + [f], i) == (Cut(fs) <= i || Idle(fs, i))
  {
    forall i | 0 <= i < |fs| ensures Idle(fs + [f], i) == (Cut(fs) <= i || Idle(fs, i)) {
      IdleSnoc(fs, f, i);
    }
  }

  lemma CutOfHlt(fs: seq<Frame>, f: Frame)
    requires IsHlt(f)
    ensures Cut(fs + [f]) == |fs|
  {
  }

  /** A HLT that ends an idle run drops the whole buffer. */
  lemma DropSnoc(fs: seq<Frame>, f: Frame)
    requires IsHlt(f) && Candidate(fs).Some?
    ensures Settled(fs + [f]) == Settled(fs)
    ensures Dropped(fs + [f]) == Dropped(fs) + fs[Cut(fs)..]
  {
    var all, n, c := fs + [f], |fs|, Cut(fs);
    DropFlags(fs, f);
    CutOfHlt(fs, f);
    assert all[..c] == fs[..c] && all[c..n] == fs[c..];
    PartSame(all, fs, c, false);
    PartSame(all, fs, c, true);
    PartRun(all, c, n, true);
  }

  // ---- idempotence ----

  ghost predicate NoIdle(fs: seq<Frame>)
  {
    forall i :: 0 <= i < |fs| ==> !Idle(fs, i)
  }

  lemma NoIdleSnoc(fs: seq<Frame>, f: Frame)
    requires NoIdle(fs) && (IsHlt(f) ==> Candidate(fs) == None)
    ensures NoIdle(fs + [f])
  {
    forall i | 0 <= i < |fs + [f]| ensures !Idle(fs + [f], i) {
      IdleSnoc(fs, f, i);
      if i == |fs| {
        NotIdleYet(fs, i);
      }
    }
  }

  /** What the filter has written, and what it would write if the trace ended now, hold no idle run. */
  ghost predicate Clean(fs: seq<Frame>)
  {
    && NoIdle(Settled(fs)) && Candidate(Settled(fs)) == None
    && NoIdle(Filtered(fs))
    && Candidate(Filtered(fs)) == if Candidate(fs).Some? then Some(|Settled(fs)|) else None
  }

  /** The filter's output after one more record: appended, unless it ends an idle run, which goes. */
  lemma FilteredSnoc(fs: seq<Frame>, f: Frame)
    ensures Filtered(fs + [f])
            == (if IsHlt(f) && Candidate(fs).Some? then Settled(fs) else Filtered(fs)) + [f]
    ensures Settled(fs + [f])
            == if IsHlt(f) then (if Candidate(fs).Some? then Settled(fs) else Filtered(fs))
               else if Candidate(fs + [f]).Some? then Settled(fs)
               else Filtered(fs) + [f]
  {
    var all, n := fs + [f], |fs|;
    assert all[..n] == fs;
    FilteredNow(fs);
    FilteredNow(all);
    if IsHlt(f) && Candidate(fs).Some? {
      DropSnoc(fs, f);
      assert all[n..] == [f];
    } else {
      KeepSnoc(fs, f);
      assert all[Cut(fs)..] == fs[Cut(fs)..] + [f];
      assert all[Cut(fs)..n] == fs[Cut(fs)..];
    }
  }

  lemma CandidateSnoc(fs: seq<Frame>, f: Frame)
    ensures Candidate(fs + [f]) == if IsHlt(f) then Some(|fs|) else if IsUser(f) then None else Candidate(fs)
  {
    assert (fs + [f])[..|fs|] == fs;
  }

  lemma CleanSnoc(fs: seq<Frame>, f: Frame)
    requires Clean(fs)
    ensures Clean(fs + [f])
  {
    CandidateSnoc(fs, f);
    FilteredSnoc(fs, f);
    FilteredNow(fs);
    assert fs[|fs|..] == [];
    var before := if IsHlt(f) && Candidate(fs).Some? then Settled(fs) else Filtered(fs);
    NoIdleSnoc(before, f);
    CandidateSnoc(before, f);
  }

  lemma {:induction false} AlwaysClean(fs: seq<Frame>)
    ensures Clean(fs)
  {
    if fs == [] {
      FilteredNow([]);
    } else {
      var n := |fs| - 1;
      AlwaysClean(fs[..n]);
      CleanSnoc(fs[..n], fs[n]);
      assert fs[..n] + [fs[n]] == fs;
    }
  }

  /** Filtering a filtered trace changes nothing. */
  lemma FilterIdempotent(fs: seq<Frame>)
    ensures Filtered(Filtered(fs)) == Filtered(fs)
    ensures Removed(Filtered(fs)) == []
  {
    AlwaysClean(fs);
    var gs := Filtered(fs);
    PartRun(gs, 0, |gs|, false);
    assert gs[0..|gs|] == gs;
  }

  // ---- conservation ----

  lemma CountPart(fs: seq<Frame>, n: nat, idle: bool, p: Frame -> bool)
    requires 0 < n <= |fs|
    ensures Count(Part(fs, n, idle), p)
            == Count(Part(fs, n - 1, idle), p) + if Idle(fs, n - 1) == idle && p(fs[n - 1]) then 1 else 0
  {
    var before := Part(fs, n - 1, idle);
    assert before + [] == before;
    CountSnoc(before, fs[n - 1], p);
  }

  lemma {:induction false} PartLengths(fs: seq<Frame>, n: nat)
    requires n <= |fs|
    ensures |Part(fs, n, false)| + |Part(fs, n, true)| == n
  {
    if n == 0 {
    } else {
      PartLengths(fs, n - 1);
    }
  }

  lemma CountTake(fs: seq<Frame>, n: nat, p: Frame -> bool)
    requires 0 < n <= |fs|
    ensures Count(fs[..n], p) == Count(fs[..n - 1], p) + if p(fs[n - 1]) then 1 else 0
  {
    assert fs[..n] == fs[..n - 1] + [fs[n - 1]];
    CountSnoc(fs[..n - 1], fs[n - 1], p);
  }

  /** Every record is kept or removed, exactly once. */
  lemma {:induction false} PartsConserve(fs: seq<Frame>, n: nat, p: Frame -> bool)
    requires n <= |fs|
    ensures Count(Part(fs, n, false), p) + Count(Part(fs, n, true), p) == Count(fs[..n], p)
    ensures |Part(fs, n, false)| + |Part(fs, n, true)| == n
  {
    PartLengths(fs, n);
    if n == 0 {
    } else {
      PartsConserve(fs, n - 1, p);
      CountTake(fs, n, p);
      CountPart(fs, n, false, p);
      CountPart(fs, n, true, p);
    }
  }

  lemma IdleKinds(fs: seq<Frame>, i: nat)
    requires Idle(fs, i)
    ensures i < |fs| && !IsWake(fs[i])
  {
    var h: nat, h2: nat :| h <= i < h2 && IdleRun(fs, h, h2);
  }

  lemma {:induction false} RemovedKinds(fs: seq<Frame>, n: nat)
    requires n <= |fs|
    ensures Count(Part(fs, n, true), IsWake) == 0
  {
    if n == 0 {
    } else {
      RemovedKinds(fs, n - 1);
      CountPart(fs, n, true, IsWake);
      if Idle(fs, n - 1) {
        IdleKinds(fs, n - 1);
      }
    }
  }

  /** Every user instruction but HLT is kept, and every record is kept or removed. */
  lemma WakesKept(fs: seq<Frame>)
    ensures Count(Filtered(fs), IsWake) == Count(fs, IsWake)
    ensures |Filtered(fs)| + |Removed(fs)| == |fs|
  {
    PartsConserve(fs, |fs|, IsWake);
    RemovedKinds(fs, |fs|);
    assert fs[..|fs|] == fs;
  }
}
