/** trace_sanity_check on v2 traces: the one-pass counters, the acceptance checks, and why every trace the
    converter writes meets the ones that do not depend on the workload. */
module Checker {
  import opened Bytes
  import opened ChampSim
  import opened Convert
  import opened IndirectTargets
  import opened RawFormat

  const NUM_BRANCH_TYPES: nat := 8
  const REG_FLAGS: Byte := 25

  // ---- what is counted ----

  function OfType(b: Byte): OutRecord -> bool
  {
    (r: OutRecord) => r.branchType == b
  }

  function TakenOfType(b: Byte): OutRecord -> bool
  {
    (r: OutRecord) => r.branchType == b && r.taken
  }

  predicate HasFlagsFeature(r: OutRecord)
  {
    r.features / 2 % 2 == 1
  }

  /** A call or a return that does not say it is a branch. */
  predicate CallRetNotFlagged(r: OutRecord)
  {
    (r.branchType == DIRECT_CALL || r.branchType == INDIRECT_CALL || r.branchType == RETURN) && !r.isBranch
  }

  predicate FlagsInSrc(r: OutRecord)
  {
    REG_FLAGS in r.srcRegs
  }

  predicate FlagsInDst(r: OutRecord)
  {
    REG_FLAGS in r.dstRegs
  }

  /** The histograms of the records rs: one bar per branch type, out-of-range types ignored. */
  ghost predicate Histograms(rs: seq<OutRecord>, hist: seq<nat>, taken: seq<nat>)
  {
    && |hist| == NUM_BRANCH_TYPES && |taken| == NUM_BRANCH_TYPES
    && forall b :: 0 <= b < NUM_BRANCH_TYPES ==>
         hist[b] == Count(rs, OfType(b)) && taken[b] == Count(rs, TakenOfType(b))
  }

  lemma HistogramsSnoc(rs: seq<OutRecord>, r: OutRecord, hist: seq<nat>, taken: seq<nat>)
    requires Histograms(rs, hist, taken)
    ensures var b := r.branchType;
            Histograms(rs + [r],
                       if b < NUM_BRANCH_TYPES then hist[b := hist[b] + 1] else hist,
                       if b < NUM_BRANCH_TYPES && r.taken then taken[b := taken[b] + 1] else taken)
  {
    forall b | 0 <= b < NUM_BRANCH_TYPES
      ensures Count(rs + [r], OfType(b)) == hist[b] + if r.branchType == b then 1 else 0
      ensures Count(rs + [r], TakenOfType(b)) == taken[b] + if r.branchType == b && r.taken then 1 else 0
    {
      CountSnoc(rs, r, OfType(b));
      CountSnoc(rs, r, TakenOfType(b));
    }
  }

  /** Whether the flags register is among these. */
  method FindFlags(regs: seq<Byte>) returns (found: bool)
    ensures found <==> REG_FLAGS in regs
  {
    for i := 0 to |regs|
      invariant REG_FLAGS !in regs[..i]
    {
      if regs[i] == REG_FLAGS {
        return true;
      }
    }
    found := false;
  }

  class Stats {
    var records: nat
    const btypeHist: array<nat>
    const btypeTaken: array<nat>
    var explicitBt: nat
    var flagsFeature: nat
    var callRetNotFlagged: nat
    var flagsInSrc: nat
    var flagsInDst: nat
    var indTargets: TargetMap
    var indExec: ExecMap
    var indPending: Option<U64>
    var indDangling: nat

    /** The scalar counters after the records rs. */
    ghost predicate Tallies(rs: seq<OutRecord>)
      reads `records, `explicitBt, `flagsFeature, `callRetNotFlagged, `flagsInSrc, `flagsInDst
    {
      && records == |rs|
      && explicitBt == Count(rs, ExplicitType) && flagsFeature == Count(rs, HasFlagsFeature)
      && callRetNotFlagged == Count(rs, CallRetNotFlagged)
      && flagsInSrc == Count(rs, FlagsInSrc) && flagsInDst == Count(rs, FlagsInDst)
    }

    ghost predicate Bars(rs: seq<OutRecord>)
      reads btypeHist, btypeTaken
    {
      btypeHist != btypeTaken && Histograms(rs, btypeHist[..], btypeTaken[..])
    }

    ghost predicate Targeted(rs: seq<OutRecord>)
      reads `indTargets, `indExec, `indPending
    {
      Attributed(rs, indTargets, indExec) && indPending == Pending(rs)
    }

    /** The state of the read loop after the records rs. */
    ghost predicate After(rs: seq<OutRecord>)
      reads this, btypeHist, btypeTaken
    {
      Tallies(rs) && Bars(rs) && Targeted(rs) && indDangling == 0
    }

    constructor ()
      ensures After([]) && fresh(btypeHist) && fresh(btypeTaken)
    {
      records, explicitBt, flagsFeature, callRetNotFlagged, flagsInSrc, flagsInDst := 0, 0, 0, 0, 0, 0;
      btypeHist := new nat[NUM_BRANCH_TYPES](_ => 0);
      btypeTaken := new nat[NUM_BRANCH_TYPES](_ => 0);
      indTargets, indExec, indPending, indDangling := map[], map[], None, 0;
    }

    /** The registers of one record. */
    method TallyFlags(ghost rs: seq<OutRecord>, r: OutRecord)
      requires flagsInSrc == Count(rs, FlagsInSrc) && flagsInDst == Count(rs, FlagsInDst)
      modifies this`flagsInSrc, this`flagsInDst
      ensures flagsInSrc == Count(rs + [r], FlagsInSrc) && flagsInDst == Count(rs + [r], FlagsInDst)
    {
      CountSnoc(rs, r, FlagsInSrc);
      CountSnoc(rs, r, FlagsInDst);
      var inSrc := FindFlags(r.srcRegs);
      if inSrc {
        flagsInSrc := flagsInSrc + 1;
      }
      var inDst := FindFlags(r.dstRegs);
      if inDst {
        flagsInDst := flagsInDst + 1;
      }
    }

    method TallyRecord(ghost rs: seq<OutRecord>, r: OutRecord)
      requires Tallies(rs)
      modifies this`records, this`explicitBt, this`flagsFeature, this`callRetNotFlagged
      modifies this`flagsInSrc, this`flagsInDst
      ensures Tallies(rs + [r])
    {
      CountSnoc(rs, r, ExplicitType);
      CountSnoc(rs, r, HasFlagsFeature);
      CountSnoc(rs, r, CallRetNotFlagged);
      records := records + 1;
      if r.features % 2 == EXPLICIT_BRANCH_TYPE {
        explicitBt := explicitBt + 1;
      }
      if r.features / 2 % 2 == 1 {
        flagsFeature := flagsFeature + 1;
      }
      if (r.branchType == DIRECT_CALL || r.branchType == INDIRECT_CALL || r.branchType == RETURN) && !r.isBranch {
        callRetNotFlagged := callRetNotFlagged + 1;
      }
      TallyFlags(rs, r);
    }

    method TallyType(ghost rs: seq<OutRecord>, r: OutRecord)
      requires Bars(rs)
      modifies btypeHist, btypeTaken
      ensures Bars(rs + [r])
    {
      ghost var hist, taken := btypeHist[..], btypeTaken[..];
      HistogramsSnoc(rs, r, hist, taken);
      var bt := r.branchType;
      if bt < NUM_BRANCH_TYPES {
        btypeHist[bt] := btypeHist[bt] + 1;
        if r.taken {
          btypeTaken[bt] := btypeTaken[bt] + 1;
        }
        assert btypeHist[..] == hist[bt := hist[bt] + 1];
        assert btypeTaken[..] == if r.taken then taken[bt := taken[bt] + 1] else taken;
      }
    }

    method TallyTarget(ghost rs: seq<OutRecord>, r: OutRecord)
      requires Targeted(rs)
      modifies `indTargets, `indExec, `indPending
      ensures Targeted(rs + [r])
    {
      indTargets, indExec, indPending := Attribute(rs, r, indTargets, indExec, indPending);
    }

    /** One iteration of the read loop. */
    method Observe(ghost rs: seq<OutRecord>, r: OutRecord)
      requires After(rs)
      modifies this, btypeHist, btypeTaken
      ensures After(rs + [r])
    {
      TallyType(rs, r);
      TallyTarget(rs, r);
      TallyRecord(rs, r);
    }
  }

  /** run_v2: one pass over the records. A trailing indirect branch is counted as dangling. */
  method RunV2(rs: seq<OutRecord>) returns (s: Stats)
    ensures fresh(s) && fresh(s.btypeHist) && fresh(s.btypeTaken)
    ensures s.Tallies(rs) && s.Bars(rs) && Attributed(rs, s.indTargets, s.indExec)
    ensures s.indPending == None && s.indDangling == if Pending(rs).Some? then 1 else 0
  {
    s := new Stats();
    assert rs[..0] == [];
    for i := 0 to |rs|
      invariant fresh(s) && fresh(s.btypeHist) && fresh(s.btypeTaken) && s.After(rs[..i])
    {
      s.Observe(rs[..i], rs[i]);
      assert rs[..i + 1] == rs[..i] + [rs[i]];
    }
    assert rs[..|rs|] == rs;
    if s.indPending.Some? {
      s.indDangling, s.indPending := s.indDangling + 1, None;
    }
  }

  // ---- the acceptance checks ----

  predicate Unconditional(r: OutRecord)
  {
    KnownTaken(r.branchType)
  }

  predicate UnconditionalTaken(r: OutRecord)
  {
    KnownTaken(r.branchType) && r.taken
  }

  /** The branch types present, among the first n. */
  function Present(rs: seq<OutRecord>, n: nat): set<nat>
  {
    set b: nat | b < n && b < NUM_BRANCH_TYPES && Count(rs, OfType(b)) > 0
  }

  /** The six acceptance checks, on the records. */
  ghost predicate Passes(rs: seq<OutRecord>, check: nat)
  {
    match check
    case 1 => |rs| > 0 && Count(rs, ExplicitType) == |rs|
    case 2 => |Present(rs, NUM_BRANCH_TYPES)| >= 2
    case 3 => 0 < Count(rs, TakenOfType(CONDITIONAL)) < Count(rs, OfType(CONDITIONAL))
    case 4 => 0 < Count(rs, UnconditionalTaken) == Count(rs, Unconditional)
    case 5 => Count(rs, CallRetNotFlagged) == 0
    case _ => Count(rs, FlagsInSrc) > 0 && Count(rs, FlagsInDst) > 0
  }

  ghost function Failed(rs: seq<OutRecord>, n: nat): nat
  {
    if n == 0 then 0 else Failed(rs, n - 1) + if Passes(rs, n) then 0 else 1
  }

  function KnownBelow(n: nat): OutRecord -> bool
  {
    (r: OutRecord) => KnownTaken(r.branchType) && r.branchType < n
  }

  function KnownTakenBelow(n: nat): OutRecord -> bool
  {
    (r: OutRecord) => KnownTaken(r.branchType) && r.branchType < n && r.taken
  }

  /** The bars of the unconditional types add up to the unconditional records. */
  lemma {:induction false} BelowStep(rs: seq<OutRecord>, b: Byte)
    ensures Count(rs, KnownBelow(b + 1)) == Count(rs, KnownBelow(b)) + if KnownTaken(b) then Count(rs, OfType(b)) else 0
    ensures Count(rs, KnownTakenBelow(b + 1))
            == Count(rs, KnownTakenBelow(b)) + if KnownTaken(b) then Count(rs, TakenOfType(b)) else 0
  {
    if rs == [] {
    } else {
      BelowStep(rs[..|rs| - 1], b);
    }
  }

  lemma {:induction false} BelowAll(rs: seq<OutRecord>)
    ensures Count(rs, KnownBelow(NUM_BRANCH_TYPES)) == Count(rs, Unconditional)
    ensures Count(rs, KnownTakenBelow(NUM_BRANCH_TYPES)) == Count(rs, UnconditionalTaken)
    ensures Count(rs, KnownBelow(0)) == 0 == Count(rs, KnownTakenBelow(0))
  {
    if rs == [] {
    } else {
      BelowAll(rs[..|rs| - 1]);
    }
  }

  method SumUnconditional(s: Stats, ghost rs: seq<OutRecord>) returns (uncond: nat, taken: nat)
    requires s.Bars(rs)
    ensures uncond == Count(rs, Unconditional) && taken == Count(rs, UnconditionalTaken)
  {
    uncond, taken := 0, 0;
    BelowAll(rs);
    for i := 0 to NUM_BRANCH_TYPES
      invariant uncond == Count(rs, KnownBelow(i)) && taken == Count(rs, KnownTakenBelow(i))
    {
      BelowStep(rs, i);
      assert s.btypeHist[i] == s.btypeHist[..][i] && s.btypeTaken[i] == s.btypeTaken[..][i];
      if KnownTaken(i) {
        uncond, taken := uncond + s.btypeHist[i], taken + s.btypeTaken[i];
      }
    }
  }

  lemma PresentNext(rs: seq<OutRecord>, n: nat)
    requires n < NUM_BRANCH_TYPES
    ensures Present(rs, n + 1) == Present(rs, n) + if Count(rs, OfType(n)) > 0 then {n} else {}
    ensures n !in Present(rs, n)
  {
  }

  method CountDistinct(s: Stats, ghost rs: seq<OutRecord>) returns (distinct: nat)
    requires s.Bars(rs)
    ensures distinct == |Present(rs, NUM_BRANCH_TYPES)|
  {
    distinct := 0;
    assert Present(rs, 0) == {};
    for i := 0 to NUM_BRANCH_TYPES
      invariant distinct == |Present(rs, i)|
    {
      assert s.btypeHist[i] == s.btypeHist[..][i] == Count(rs, OfType(i));
      PresentNext(rs, i);
      if s.btypeHist[i] > 0 {
        distinct := distinct + 1;
      }
    }
  }

  function Percent(n: nat, d: nat): real
  {
    if d > 0 then 100.0 * (n as real) / (d as real) else 0.0
  }

  lemma PercentInside(n: nat, d: nat)
    ensures d > 0 && Percent(n, d) > 0.0 && Percent(n, d) < 100.0 <==> 0 < n < d
  {
  }

  method Report(failures: nat, ok: bool) returns (failures': nat)
    ensures failures' == failures + if ok then 0 else 1
  {
    failures' := if ok then failures else failures + 1;
  }

  /** run_checks: how many of the six checks fail. */
  method RunChecks(s: Stats, ghost rs: seq<OutRecord>) returns (failures: nat)
    requires s.Tallies(rs) && s.Bars(rs)
    ensures failures == Failed(rs, 6)
  {
    var cond, condTaken := s.btypeHist[CONDITIONAL], s.btypeTaken[CONDITIONAL];
    assert cond == s.btypeHist[..][CONDITIONAL] && condTaken == s.btypeTaken[..][CONDITIONAL];
    failures := Report(0, s.records > 0 && s.explicitBt == s.records);
    var distinct := CountDistinct(s, rs);
    failures := Report(failures, distinct >= 2);
    PercentInside(condTaken, cond);
    failures := Report(failures, cond > 0 && Percent(condTaken, cond) > 0.0 && Percent(condTaken, cond) < 100.0);
    assert failures == Failed(rs, 3) by {
      assert Failed(rs, 1) == Failed(rs, 0) + if Passes(rs, 1) then 0 else 1;
    }
    var uncond, uncondTaken := SumUnconditional(s, rs);
    failures := Report(failures, uncond > 0 && uncondTaken == uncond);
    failures := Report(failures, s.callRetNotFlagged == 0);
    failures := Report(failures, s.flagsInSrc > 0 && s.flagsInDst > 0);
    assert failures == Failed(rs, 6) by {
      assert Failed(rs, 4) == Failed(rs, 3) + if Passes(rs, 4) then 0 else 1;
    }
  }

  // ---- the converter's output ----

  /** What every record the converter writes satisfies. */
  predicate WellTyped(r: OutRecord)
  {
    ExplicitType(r) && (r.isBranch <==> r.branchType != NOT_BRANCH) && (Unconditional(r) ==> r.taken)
  }

  lemma DirectedWellTyped(decode: Decoder, arch: Byte, rs: seq<RawRecord>, i: nat)
    requires i < |rs|
    ensures WellTyped(Directed(decode, arch, rs, i))
  {
  }

  lemma OutputWellTyped(decode: Decoder, arch: Byte, rs: seq<RawRecord>, why: Stop)
    ensures forall r :: r in Output(decode, arch, rs, why) ==> WellTyped(r)
  {
    var n := Kept(decode, arch, rs, why);
    forall i | 0 <= i < n ensures WellTyped(FirstDirected(decode, arch, rs, n)[i]) {
      DirectedWellTyped(decode, arch, rs, i);
    }
  }

  lemma ConvertedWellTyped(decode: Decoder, bytes: seq<Byte>, maxInsns: nat)
    requires ConversionOf(decode, bytes, maxInsns).Converted?
    ensures forall r :: r in ConversionOf(decode, bytes, maxInsns).out ==> WellTyped(r)
  {
    var h := ReadHeader(bytes);
    var sc := Limited(Scan(h.layout, bytes[FILE_HEADER_SIZE..]), maxInsns);
    OutputWellTyped(decode, h.arch, Records(sc.frames), sc.stop);
  }

  lemma {:induction false} CountsOfWellTyped(rs: seq<OutRecord>)
    requires forall r :: r in rs ==> WellTyped(r)
    ensures Count(rs, ExplicitType) == |rs|
    ensures Count(rs, UnconditionalTaken) == Count(rs, Unconditional)
    ensures Count(rs, CallRetNotFlagged) == 0
  {
    if rs == [] {
    } else {
      assert WellTyped(rs[|rs| - 1]);
      CountsOfWellTyped(rs[..|rs| - 1]);
    }
  }

  lemma {:induction false} TakenOfWellTyped(rs: seq<OutRecord>, b: Byte)
    requires KnownTaken(b) && forall r :: r in rs ==> WellTyped(r)
    ensures Count(rs, TakenOfType(b)) == Count(rs, OfType(b))
  {
    if rs == [] {
    } else {
      assert WellTyped(rs[|rs| - 1]);
      TakenOfWellTyped(rs[..|rs| - 1], b);
    }
  }

  /** Whatever the input file, the decoder and -n, and however the conversion stopped: the converter's
      trace declares its branch type on every record, every unconditional class is 100% taken, and no call
      or return is unflagged. */
  lemma ConverterPassesChecks(decode: Decoder, bytes: seq<Byte>, maxInsns: nat)
    requires ConversionOf(decode, bytes, maxInsns).Converted?
    ensures var rs := ConversionOf(decode, bytes, maxInsns).out;
            && Count(rs, ExplicitType) == |rs|
            && (rs != [] ==> Passes(rs, 1))
            && (forall b: Byte :: KnownTaken(b) ==> Count(rs, TakenOfType(b)) == Count(rs, OfType(b)))
            && (Passes(rs, 4) <==> Count(rs, Unconditional) > 0)
            && Passes(rs, 5)
  {
    var rs := ConversionOf(decode, bytes, maxInsns).out;
    ConvertedWellTyped(decode, bytes, maxInsns);
    CountsOfWellTyped(rs);
    forall b: Byte | KnownTaken(b) ensures Count(rs, TakenOfType(b)) == Count(rs, OfType(b)) {
      TakenOfWellTyped(rs, b);
    }
  }
}
