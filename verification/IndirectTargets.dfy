/** Which targets each indirect branch jumps to: the "next record" specification, and the polymorphism
    report that buckets it. */
module IndirectTargets {
  import opened Bytes
  import opened ChampSim

  // ---- the declarative attribution ----

  predicate IsIndirect(r: OutRecord)
  {
    r.branchType == INDIRECT || r.branchType == INDIRECT_CALL
  }

  function IndirectAt(pc: U64): OutRecord -> bool
  {
    (r: OutRecord) => IsIndirect(r) && r.ip == pc
  }

  /** The IPs of the records right after an indirect branch at pc. */
  ghost function Targets(rs: seq<OutRecord>, pc: U64): set<U64>
  {
    set i | 0 <= i < |rs| - 1 && IndirectAt(pc)(rs[i]) :: rs[i + 1].ip
  }

  function Executions(rs: seq<OutRecord>, pc: U64): nat
  {
    Count(rs, IndirectAt(pc))
  }

  /** The indirect branch still waiting for its target. */
  function Pending(rs: seq<OutRecord>): Option<U64>
  {
    if rs != [] && IsIndirect(rs[|rs| - 1]) then Some(rs[|rs| - 1].ip) else None
  }

  /** The next record resolves the pending branch and no other. */
  lemma TargetsSnoc(rs: seq<OutRecord>, r: OutRecord, pc: U64)
    ensures Targets(rs + [r], pc) == Targets(rs, pc) + if Pending(rs) == Some(pc) then {r.ip} else {}
  {
    var all, n := rs + [r], |rs|;
    assert forall i :: 0 <= i < n ==> all[i] == rs[i];
    forall t ensures t in Targets(all, pc)
                     <==> t in Targets(rs, pc) || (Pending(rs) == Some(pc) && t == r.ip)
    {
      if t in Targets(rs, pc) {
        var i :| 0 <= i < n - 1 && IndirectAt(pc)(rs[i]) && rs[i + 1].ip == t;
        assert IndirectAt(pc)(all[i]) && all[i + 1].ip == t;
      }
      if Pending(rs) == Some(pc) {
        assert IndirectAt(pc)(all[n - 1]) && all[n - 1 + 1].ip == r.ip;
      }
    }
  }

  /** An indirect branch with no target is the last record of the trace and ran once. */
  lemma {:induction false} NoTargetRanOnce(rs: seq<OutRecord>, pc: U64)
    requires Executions(rs, pc) > 0 && Targets(rs, pc) == {}
    ensures Pending(rs) == Some(pc) && Executions(rs, pc) == 1
  {
    var n := |rs| - 1;
    var front := rs[..n];
    assert rs == front + [rs[n]];
    TargetsSnoc(front, rs[n], pc);
    if Executions(front, pc) > 0 {
      NoTargetRanOnce(front, pc);
    }
  }

  // ---- the maps the checker fills ----

  type ExecMap = map<U64, nat>
  type TargetMap = map<U64, set<U64>>

  ghost function SumOver(m: ExecMap, s: set<U64>): nat
    requires s <= m.Keys
  {
    if s == {} then 0 else
    var x :| x in s;
    m[x] + SumOver(m, s - {x})
  }

  lemma {:induction false} SumRemove(m: ExecMap, s: set<U64>, k: U64)
    requires s <= m.Keys && k in s
    ensures SumOver(m, s) == m[k] + SumOver(m, s - {k})
  {
    var x :| x in s && SumOver(m, s) == m[x] + SumOver(m, s - {x});
    if x != k {
      SumRemove(m, s - {x}, k);
      SumRemove(m, s - {k}, x);
      assert s - {x} - {k} == s - {k} - {x};
    }
  }

  lemma SumAdd(m: ExecMap, s: set<U64>, k: U64)
    requires s <= m.Keys && k in m && k !in s
    ensures SumOver(m, s + {k}) == SumOver(m, s) + m[k]
  {
    SumRemove(m, s + {k}, k);
    assert s + {k} - {k} == s;
  }

  lemma {:induction false} SumSame(m: ExecMap, m': ExecMap, s: set<U64>)
    requires s <= m.Keys && s <= m'.Keys && forall k :: k in s ==> m[k] == m'[k]
    ensures SumOver(m, s) == SumOver(m', s)
  {
    if s == {} {
    } else {
      var x :| x in s && SumOver(m, s) == m[x] + SumOver(m, s - {x});
      SumSame(m, m', s - {x});
      SumRemove(m', s, x);
    }
  }

  lemma SumBump(m: ExecMap, k: U64)
    ensures var m' := m[k := (if k in m then m[k] else 0) + 1];
            SumOver(m', m'.Keys) == SumOver(m, m.Keys) + 1
  {
    var m' := m[k := (if k in m then m[k] else 0) + 1];
    var others := m.Keys - {k};
    SumSame(m, m', others);
    SumAdd(m', others, k);
    assert m'.Keys == others + {k};
    if k in m {
      SumRemove(m, m.Keys, k);
    } else {
      assert others == m.Keys;
    }
  }

  ghost predicate TargetRight(rs: seq<OutRecord>, targets: TargetMap, pc: U64)
  {
    if pc in targets then targets[pc] == Targets(rs, pc) != {} else Targets(rs, pc) == {}
  }

  ghost predicate ExecRight(rs: seq<OutRecord>, exec: ExecMap, pc: U64)
  {
    if pc in exec then exec[pc] == Executions(rs, pc) > 0 else Executions(rs, pc) == 0
  }

  /** The maps after the records rs hold exactly the specified targets and counts. */
  ghost predicate Attributed(rs: seq<OutRecord>, targets: TargetMap, exec: ExecMap)
  {
    && (forall pc :: TargetRight(rs, targets, pc))
    && (forall pc :: ExecRight(rs, exec, pc))
    && SumOver(exec, exec.Keys) == Count(rs, IsIndirect)
  }

  function WithTarget(targets: TargetMap, pc: U64, t: U64): TargetMap
  {
    targets[pc := (if pc in targets then targets[pc] else {}) + {t}]
  }

  lemma TargetRightSnoc(rs: seq<OutRecord>, r: OutRecord, targets: TargetMap, pc: U64)
    requires TargetRight(rs, targets, pc)
    ensures Pending(rs) == None ==> TargetRight(rs + [r], targets, pc)
    ensures Pending(rs).Some? ==> TargetRight(rs + [r], WithTarget(targets, Pending(rs).value, r.ip), pc)
  {
    TargetsSnoc(rs, r, pc);
    assert r.ip in Targets(rs, pc) + {r.ip};
  }

  /** Resolve the pending branch against this record. */
  method Resolve(ghost rs: seq<OutRecord>, r: OutRecord, targets: TargetMap, pending: Option<U64>)
    returns (targets': TargetMap)
    requires forall pc :: TargetRight(rs, targets, pc)
    requires pending == Pending(rs)
    ensures forall pc :: TargetRight(rs + [r], targets', pc)
  {
    targets' := targets;
    if pending.Some? {
      targets' := WithTarget(targets, pending.value, r.ip);
    }
    forall pc ensures TargetRight(rs + [r], targets', pc) {
      TargetRightSnoc(rs, r, targets, pc);
    }
  }

  /** Count this record if it is an indirect branch. */
  method CountIndirect(ghost rs: seq<OutRecord>, r: OutRecord, exec: ExecMap) returns (exec': ExecMap)
    requires (forall pc :: ExecRight(rs, exec, pc)) && SumOver(exec, exec.Keys) == Count(rs, IsIndirect)
    ensures (forall pc :: ExecRight(rs + [r], exec', pc))
    ensures SumOver(exec', exec'.Keys) == Count(rs + [r], IsIndirect)
  {
    exec' := exec;
    CountSnoc(rs, r, IsIndirect);
    if IsIndirect(r) {
      SumBump(exec, r.ip);
      exec' := exec[r.ip := (if r.ip in exec then exec[r.ip] else 0) + 1];
    }
    forall pc ensures ExecRight(rs + [r], exec', pc) {
      assert ExecRight(rs, exec, pc);
      CountSnoc(rs, r, IndirectAt(pc));
    }
  }

  /** One record of the read loop: resolve first, then arm, so that two indirect branches in a row both
      resolve. */
  method Attribute(ghost rs: seq<OutRecord>, r: OutRecord, targets: TargetMap, exec: ExecMap, pending: Option<U64>)
    returns (targets': TargetMap, exec': ExecMap, pending': Option<U64>)
    requires Attributed(rs, targets, exec) && pending == Pending(rs)
    ensures Attributed(rs + [r], targets', exec') && pending' == Pending(rs + [r])
  {
    targets' := Resolve(rs, r, targets, pending);
    exec' := CountIndirect(rs, r, exec);
    pending' := if IsIndirect(r) then Some(r.ip) else None;
  }

  // ---- the report ----

  /** Bucket b covers lo..hi distinct targets; the last is open-ended. */
  const BUCKETS: seq<(nat, nat)> :=
    [(1, 1), (2, 2), (3, 4), (5, 8), (9, 16), (17, 32), (33, 64), (65, 256), (257, 257)]

  const NB: nat := 9

  predicate InRange(b: nat, nt: nat)
  {
    b < NB && BUCKETS[b].0 <= nt && (nt <= BUCKETS[b].1 || b == NB - 1)
  }

  lemma OneBucket(b: nat, c: nat, nt: nat)
    requires InRange(b, nt) && InRange(c, nt)
    ensures b == c
  {
  }

  method FindBucket(nt: nat) returns (b: nat)
    requires nt > 0
    ensures InRange(b, nt)
  {
    b := 0;
    while !(BUCKETS[b].0 <= nt && (nt <= BUCKETS[b].1 || b == NB - 1))
      invariant b < NB && BUCKETS[b].0 <= nt
      decreases NB - b
    {
      b := b + 1;
    }
  }

  /** The PCs of s with a known target. */
  ghost function Resolved(targets: TargetMap, s: set<U64>): set<U64>
  {
    set pc | pc in s && pc in targets && targets[pc] != {}
  }

  ghost function Bucketed(targets: TargetMap, s: set<U64>, b: nat): set<U64>
  {
    set pc | pc in Resolved(targets, s) && InRange(b, |targets[pc]|)
  }

  function Sum(s: seq<nat>): nat
  {
    if s == [] then 0 else Sum(s[..|s| - 1]) + s[|s| - 1]
  }

  lemma {:induction false} SumUpdate(s: seq<nat>, b: nat, d: nat)
    requires b < |s|
    ensures Sum(s[b := s[b] + d]) == Sum(s) + d
  {
    var n := |s| - 1;
    if b < n {
      SumUpdate(s[..n], b, d);
      assert s[b := s[b] + d][..n] == s[..n][b := s[b] + d];
    } else {
      assert s[b := s[b] + d][..n] == s[..n];
    }
  }

  datatype Report = Report(totalPcs: nat, totalExec: nat, statN: seq<nat>, dynN: seq<nat>,
                           maxTargets: nat, maxTargetsPc: U64)

  /** A bucket's static and dynamic share. */
  ghost predicate BucketRight(exec: ExecMap, targets: TargetMap, s: set<U64>, b: nat, n: nat, e: nat)
    requires s <= exec.Keys
  {
    n == |Bucketed(targets, s, b)| && e == SumOver(exec, Bucketed(targets, s, b))
  }

  ghost predicate BucketsRight(exec: ExecMap, targets: TargetMap, s: set<U64>, statN: seq<nat>, dynN: seq<nat>)
    requires s <= exec.Keys
  {
    && |statN| == NB && |dynN| == NB
    && forall b :: 0 <= b < NB ==> BucketRight(exec, targets, s, b, statN[b], dynN[b])
  }

  /** The totals of a report over the PCs of s. */
  ghost predicate TotalsRight(exec: ExecMap, targets: TargetMap, s: set<U64>, r: Report)
    requires s <= exec.Keys
  {
    && r.totalPcs == |Resolved(targets, s)| == Sum(r.statN)
    && r.totalExec == SumOver(exec, Resolved(targets, s)) == Sum(r.dynN)
  }

  /** What a report over the PCs of s must say. */
  ghost predicate Describes(exec: ExecMap, targets: TargetMap, s: set<U64>, r: Report)
    requires s <= exec.Keys
  {
    BucketsRight(exec, targets, s, r.statN, r.dynN) && TotalsRight(exec, targets, s, r)
  }

  /** One more PC with nt > 0 targets, in bucket b, that ran e times. */
  function Voted(r: Report, b: nat, e: nat): Report
    requires b < |r.statN| && b < |r.dynN|
  {
    r.(totalPcs := r.totalPcs + 1, totalExec := r.totalExec + e,
       statN := r.statN[b := r.statN[b] + 1], dynN := r.dynN[b := r.dynN[b] + e])
  }

  lemma VoteBucket(exec: ExecMap, targets: TargetMap, s: set<U64>, pc: U64, b: nat, c: nat, n: nat, e: nat)
    requires s <= exec.Keys && pc in exec && pc !in s && pc in targets && targets[pc] != {}
    requires InRange(b, |targets[pc]|) && c < NB && BucketRight(exec, targets, s, c, n, e)
    ensures BucketRight(exec, targets, s + {pc}, c, n + (if c == b then 1 else 0), e + (if c == b then exec[pc] else 0))
  {
    var before, after := Bucketed(targets, s, c), Bucketed(targets, s + {pc}, c);
    if c == b {
      assert after == before + {pc};
      SumAdd(exec, before, pc);
    } else {
      if InRange(c, |targets[pc]|) {
        OneBucket(b, c, |targets[pc]|);
      }
      assert after == before;
    }
  }

  lemma VoteBuckets(exec: ExecMap, targets: TargetMap, s: set<U64>, pc: U64, b: nat, statN: seq<nat>, dynN: seq<nat>)
    requires s <= exec.Keys && pc in exec && pc !in s && pc in targets && targets[pc] != {}
    requires InRange(b, |targets[pc]|) && BucketsRight(exec, targets, s, statN, dynN)
    ensures BucketsRight(exec, targets, s + {pc}, statN[b := statN[b] + 1], dynN[b := dynN[b] + exec[pc]])
  {
    var n, e := statN[b := statN[b] + 1], dynN[b := dynN[b] + exec[pc]];
    forall c | 0 <= c < NB ensures BucketRight(exec, targets, s + {pc}, c, n[c], e[c]) {
      VoteBucket(exec, targets, s, pc, b, c, statN[c], dynN[c]);
    }
  }

  lemma VoteTotals(exec: ExecMap, targets: TargetMap, s: set<U64>, pc: U64)
    requires s <= exec.Keys && pc in exec && pc !in s && pc in targets && targets[pc] != {}
    ensures |Resolved(targets, s + {pc})| == |Resolved(targets, s)| + 1
    ensures SumOver(exec, Resolved(targets, s + {pc})) == SumOver(exec, Resolved(targets, s)) + exec[pc]
  {
    var res := Resolved(targets, s);
    assert Resolved(targets, s + {pc}) == res + {pc};
    SumAdd(exec, res, pc);
  }

  lemma VoteSums(r: Report, b: nat, e: nat)
    requires b < |r.statN| && b < |r.dynN|
    ensures Sum(Voted(r, b, e).statN) == Sum(r.statN) + 1
    ensures Sum(Voted(r, b, e).dynN) == Sum(r.dynN) + e
  {
    SumUpdate(r.statN, b, 1);
    SumUpdate(r.dynN, b, e);
  }

  lemma VoteTotalsRight(exec: ExecMap, targets: TargetMap, s: set<U64>, pc: U64, b: nat, r: Report)
    requires s <= exec.Keys && pc in exec && pc !in s && pc in targets && targets[pc] != {}
    requires b < |r.statN| && b < |r.dynN| && TotalsRight(exec, targets, s, r)
    ensures TotalsRight(exec, targets, s + {pc}, Voted(r, b, exec[pc]))
  {
    VoteSums(r, b, exec[pc]);
    VoteTotals(exec, targets, s, pc);
  }

  lemma VoteBucketsRight(exec: ExecMap, targets: TargetMap, s: set<U64>, pc: U64, b: nat, r: Report)
    requires s <= exec.Keys && pc in exec && pc !in s && pc in targets && targets[pc] != {}
    requires InRange(b, |targets[pc]|) && BucketsRight(exec, targets, s, r.statN, r.dynN)
    ensures var v := Voted(r, b, exec[pc]);
            BucketsRight(exec, targets, s + {pc}, v.statN, v.dynN)
  {
    VoteBuckets(exec, targets, s, pc, b, r.statN, r.dynN);
  }

  lemma DescribesBoth(exec: ExecMap, targets: TargetMap, s: set<U64>, r: Report)
    requires s <= exec.Keys && BucketsRight(exec, targets, s, r.statN, r.dynN) && TotalsRight(exec, targets, s, r)
    ensures Describes(exec, targets, s, r)
  {
  }

  lemma VoteDescribes(exec: ExecMap, targets: TargetMap, s: set<U64>, pc: U64, b: nat, r: Report)
    requires s <= exec.Keys && pc in exec && pc !in s && pc in targets && targets[pc] != {}
    requires InRange(b, |targets[pc]|) && Describes(exec, targets, s, r)
    ensures Describes(exec, targets, s + {pc}, Voted(r, b, exec[pc]))
  {
    VoteBucketsRight(exec, targets, s, pc, b, r);
    VoteTotalsRight(exec, targets, s, pc, b, r);
    DescribesBoth(exec, targets, s + {pc}, Voted(r, b, exec[pc]));
  }

  lemma SkipDescribes(exec: ExecMap, targets: TargetMap, s: set<U64>, pc: U64, r: Report)
    requires s <= exec.Keys && pc in exec && (pc !in targets || targets[pc] == {})
    requires Describes(exec, targets, s, r)
    ensures Describes(exec, targets, s + {pc}, r)
  {
    assert Resolved(targets, s + {pc}) == Resolved(targets, s);
    forall c | 0 <= c < NB ensures BucketRight(exec, targets, s + {pc}, c, r.statN[c], r.dynN[c]) {
      assert BucketRight(exec, targets, s, c, r.statN[c], r.dynN[c]);
      assert Bucketed(targets, s + {pc}, c) == Bucketed(targets, s, c);
    }
  }

  ghost predicate MostPolymorphic(targets: TargetMap, s: set<U64>, r: Report)
  {
    && (forall pc :: pc in Resolved(targets, s) ==> |targets[pc]| <= r.maxTargets)
    && if Resolved(targets, s) == {} then r.maxTargets == 0
       else r.maxTargetsPc in Resolved(targets, s) && |targets[r.maxTargetsPc]| == r.maxTargets
  }

  ghost predicate ReportRight(exec: ExecMap, targets: TargetMap, s: set<U64>, r: Report)
    requires s <= exec.Keys
  {
    Describes(exec, targets, s, r) && MostPolymorphic(targets, s, r)
  }

  lemma NothingYet(exec: ExecMap, targets: TargetMap, r: Report)
    requires r.totalPcs == 0 && r.totalExec == 0 && r.maxTargets == 0
    requires r.statN == seq(NB, _ => 0) && r.dynN == seq(NB, _ => 0)
    ensures ReportRight(exec, targets, {}, r)
  {
    ZeroSum(r.statN);
    ZeroSum(r.dynN);
    assert Resolved(targets, {}) == {};
    assert forall b :: Bucketed(targets, {}, b) == {};
  }

  lemma {:induction false} ZeroSum(s: seq<nat>)
    requires forall i :: 0 <= i < |s| ==> s[i] == 0
    ensures Sum(s) == 0
  {
    if s == [] {
    } else {
      ZeroSum(s[..|s| - 1]);
    }
  }

  /** The report over every PC that executed, in whatever order the hash map gives them. */
  method ReportTargets(exec: ExecMap, targets: TargetMap) returns (r: Report)
    ensures Describes(exec, targets, exec.Keys, r) && MostPolymorphic(targets, exec.Keys, r)
  {
    r := Report(0, 0, seq(NB, _ => 0), seq(NB, _ => 0), 0, 0);
    NothingYet(exec, targets, r);
    var todo := exec.Keys;
    assert exec.Keys - todo == {};
    while todo != {}
      invariant todo <= exec.Keys && ReportRight(exec, targets, exec.Keys - todo, r)
      decreases todo
    {
      var pc :| pc in todo;
      r := VotePc(exec, targets, exec.Keys - todo, pc, r);
      assert exec.Keys - (todo - {pc}) == exec.Keys - todo + {pc};
      todo := todo - {pc};
    }
    assert exec.Keys - todo == exec.Keys;
  }

  method VotePc(exec: ExecMap, targets: TargetMap, ghost seen: set<U64>, pc: U64, r: Report) returns (r': Report)
    requires seen <= exec.Keys && pc in exec && pc !in seen
    requires ReportRight(exec, targets, seen, r)
    ensures ReportRight(exec, targets, seen + {pc}, r')
  {
    var nt := if pc in targets then |targets[pc]| else 0;
    if nt == 0 {
      SkipDescribes(exec, targets, seen, pc, r);
      assert Resolved(targets, seen + {pc}) == Resolved(targets, seen);
      return r;
    }
    var b := FindBucket(nt);
    VoteDescribes(exec, targets, seen, pc, b, r);
    r' := Voted(r, b, exec[pc]);
    assert Resolved(targets, seen + {pc}) == Resolved(targets, seen) + {pc};
    if nt > r.maxTargets {
      r' := r'.(maxTargets := nt, maxTargetsPc := pc);
    }
  }

  // ---- what the report accounts for ----

  /** The report's executions are all indirect records, short by one exactly when the trace ends in an
      indirect branch whose PC never ran before. */
  lemma ReportAccountsForAll(rs: seq<OutRecord>, targets: TargetMap, exec: ExecMap, r: Report)
    requires Attributed(rs, targets, exec) && Describes(exec, targets, exec.Keys, r)
    ensures Sum(r.statN) == r.totalPcs && Sum(r.dynN) == r.totalExec
    ensures r.totalExec + (if Pending(rs).Some? && Targets(rs, Pending(rs).value) == {} then 1 else 0)
            == Count(rs, IsIndirect)
    ensures r.totalPcs + (if Pending(rs).Some? && Targets(rs, Pending(rs).value) == {} then 1 else 0)
            == |exec.Keys|
  {
    var res := Resolved(targets, exec.Keys);
    if Pending(rs).Some? && Targets(rs, Pending(rs).value) == {} {
      var pc := Pending(rs).value;
      PendingRan(rs);
      NoTargetRanOnce(rs, pc);
      assert TargetRight(rs, targets, pc) && ExecRight(rs, exec, pc);
      assert exec.Keys == res + {pc} by {
        forall k | k in exec.Keys && k !in res ensures k == pc {
          assert TargetRight(rs, targets, k) && ExecRight(rs, exec, k);
          NoTargetRanOnce(rs, k);
        }
      }
      SumAdd(exec, res, pc);
    } else {
      assert exec.Keys == res by {
        forall k | k in exec.Keys ensures k in res {
          assert TargetRight(rs, targets, k) && ExecRight(rs, exec, k);
          if Targets(rs, k) == {} {
            NoTargetRanOnce(rs, k);
          }
        }
      }
    }
  }

  lemma PendingRan(rs: seq<OutRecord>)
    requires Pending(rs).Some?
    ensures Executions(rs, Pending(rs).value) > 0
  {
  }
}
