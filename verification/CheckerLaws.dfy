/** What the checker's six acceptance checks say about a trace. */
module CheckerLaws {
  import opened Bytes
  import opened ChampSim
  import opened Checker
  import opened IndirectTargets

  // ---- counting ----

  lemma {:induction false} CountAll<T>(s: seq<T>, p: T -> bool)
    ensures Count(s, p) == |s| <==> forall x :: x in s ==> p(x)
  {
    if s == [] {
    } else {
      var n := |s| - 1;
      CountAll(s[..n], p);
      assert s == s[..n] + [s[n]];
    }
  }

  /** q is a special case of p: as many of one as of the other means every p is a q. */
  lemma {:induction false} CountSpecial<T>(s: seq<T>, p: T -> bool, q: T -> bool)
    requires forall x :: x in s && q(x) ==> p(x)
    ensures Count(s, q) <= Count(s, p)
    ensures Count(s, q) == Count(s, p) <==> forall x :: x in s && p(x) ==> q(x)
  {
    if s == [] {
    } else {
      var n := |s| - 1;
      assert forall x :: x in s <==> x in s[..n] || x == s[n] by {
        assert s == s[..n] + [s[n]];
      }
      CountSpecial(s[..n], p, q);
    }
  }

  lemma CountSome<T>(s: seq<T>, p: T -> bool)
    ensures Count(s, p) > 0 <==> exists x :: x in s && p(x)
  {
    CountNone(s, p);
  }

  // ---- the checks ----

  /** Check 1: there are records, and every one declares its branch type. */
  lemma Check1(rs: seq<OutRecord>)
    ensures Passes(rs, 1) <==> rs != [] && forall r :: r in rs ==> r.features % 2 == 1
  {
    CountAll(rs, ExplicitType);
  }

  lemma TypePresent(rs: seq<OutRecord>, b: nat)
    requires b < 8
    ensures b in Present(rs, NUM_BRANCH_TYPES) <==> exists r :: r in rs && r.branchType == b
  {
    CountSome(rs, OfType(b));
  }

  lemma TwoMembers(s: set<nat>)
    ensures |s| >= 2 <==> exists a, b :: a in s && b in s && a != b
  {
    if |s| >= 2 {
      var a :| a in s;
      assert |s - {a}| >= 1;
      var b :| b in s - {a};
      assert b in s && a != b;
    }
    if a, b :| a in s && b in s && a != b {
      assert {a, b} <= s;
      SubsetSize({a, b}, s);
    }
  }

  lemma {:induction false} SubsetSize(a: set<nat>, b: set<nat>)
    requires a <= b
    ensures |a| <= |b|
  {
    if a != {} {
      var x :| x in a;
      SubsetSize(a - {x}, b - {x});
    }
  }

  /** Two records with different branch types, both of those there are. */
  predicate Differ(r: OutRecord, q: OutRecord)
  {
    r.branchType < 8 && q.branchType < 8 && r.branchType != q.branchType
  }

  /** Check 2: there are two such records. */
  lemma Check2(rs: seq<OutRecord>)
    ensures Passes(rs, 2) <==> exists r, q :: r in rs && q in rs && Differ(r, q)
  {
    var present := Present(rs, NUM_BRANCH_TYPES);
    TwoMembers(present);
    forall b: nat | b < 8 ensures b in present <==> exists r :: r in rs && r.branchType == b {
      TypePresent(rs, b);
    }
    if a, b :| a in present && b in present && a != b {
      var r :| r in rs && r.branchType == a;
      var q :| q in rs && q.branchType == b;
      assert Differ(r, q);
    }
    if r, q :| r in rs && q in rs && Differ(r, q) {
      assert r.branchType in present && q.branchType in present;
    }
  }

  /** Check 3: some conditional branch is taken and some is not. */
  lemma Check3(rs: seq<OutRecord>)
    ensures Passes(rs, 3)
            <==> (exists r :: r in rs && r.branchType == 2 && r.taken)
                 && exists r :: r in rs && r.branchType == 2 && !r.taken
  {
    CountSome(rs, TakenOfType(CONDITIONAL));
    CountSpecial(rs, OfType(CONDITIONAL), TakenOfType(CONDITIONAL));
  }

  /** Check 4: there is an unconditional branch, and all are taken. */
  lemma Check4(rs: seq<OutRecord>)
    ensures Passes(rs, 4)
            <==> (exists r :: r in rs && r.branchType in {0, 1, 3, 4, 5})
                 && forall r :: r in rs && r.branchType in {0, 1, 3, 4, 5} ==> r.taken
  {
    CountSome(rs, Unconditional);
    CountSpecial(rs, Unconditional, UnconditionalTaken);
  }

  /** Check 5: every call and return is flagged as a branch. */
  lemma Check5(rs: seq<OutRecord>)
    ensures Passes(rs, 5) <==> forall r :: r in rs && r.branchType in {3, 4, 5} ==> r.isBranch
  {
    CountNone(rs, CallRetNotFlagged);
  }

  /** Check 6: some record reads the flags register, number 25, and some record writes it. */
  lemma Check6(rs: seq<OutRecord>)
    ensures Passes(rs, 6) <==> (exists r :: r in rs && 25 in r.srcRegs) && exists r :: r in rs && 25 in r.dstRegs
  {
    CountSome(rs, FlagsInSrc);
    CountSome(rs, FlagsInDst);
  }

  /** No failure is counted exactly if all checks hold. */
  lemma {:induction false} NoFailures(rs: seq<OutRecord>, n: nat)
    ensures Failed(rs, n) == 0 <==> forall c: nat :: 1 <= c <= n ==> Passes(rs, c)
  {
    if n == 0 {
    } else {
      NoFailures(rs, n - 1);
    }
  }

  // ---- the report on indirect branches ----

  /** Record i is an indirect jump or call at pc, and t is the address of the next. */
  predicate Reaches(rs: seq<OutRecord>, i: nat, pc: U64, t: U64)
  {
    i + 1 < |rs| && rs[i].branchType in {1, 4} && rs[i].ip == pc && rs[i + 1].ip == t
  }

  /** The targets of pc are the addresses that come right after an indirect jump or call there, and no others. */
  lemma TargetIs(rs: seq<OutRecord>, pc: U64, t: U64)
    ensures t in Targets(rs, pc) <==> exists i: nat :: Reaches(rs, i, pc, t)
  {
    if t in Targets(rs, pc) {
      var i :| 0 <= i < |rs| - 1 && IndirectAt(pc)(rs[i]) && rs[i + 1].ip == t;
      assert Reaches(rs, i, pc, t);
    }
    if i: nat :| Reaches(rs, i, pc, t) {
      assert IndirectAt(pc)(rs[i]);
    }
  }

  // ---- the report's buckets ----

  function PowerOfTwo(n: nat): nat
  {
    if n == 0 then 1 else 2 * PowerOfTwo(n - 1)
  }

  /** The buckets up to 64 targets end at the powers of two: each holds the counts that need that power and no
      smaller one. Then come those up to 256, and all the others. */
  lemma BucketBounds(b: nat, nt: nat)
    requires nt > 0
    ensures b <= 6 ==> (InRange(b, nt) <==> nt <= PowerOfTwo(b) < 2 * nt)
    ensures InRange(7, nt) <==> 64 < nt <= 256
    ensures InRange(8, nt) <==> 256 < nt
    ensures b > 8 ==> !InRange(b, nt)
  {
    var p := [PowerOfTwo(0), PowerOfTwo(1), PowerOfTwo(2), PowerOfTwo(3), PowerOfTwo(4), PowerOfTwo(5), PowerOfTwo(6)];
    assert p == [1, 2, 4, 8, 16, 32, 64] by {
      assert PowerOfTwo(3) == 8;
      assert PowerOfTwo(5) == 32;
    }
    assert b <= 6 ==> p[b] == PowerOfTwo(b);
  }
}
