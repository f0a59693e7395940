/** sgap: the sample_gap that makes K windows of N instructions span a profiled run, tied to the sampling
    machine, and how far the plugin's printed hint falls short. */
module SampleGap {
  import opened Bytes
  import opened RawFormat
  import opened CaptureSpec
  import opened CaptureWindows

  // ---- the program ----

  datatype Outcome =
    | TooFewWindows
    | NoRun               // dividing by a total of zero
    | WindowsExceedRun
    | NoUserInstructions  // dividing by a user fraction of zero
    | Plan(gap: real, hint: real)

  /** K windows of n, and the gaps between them, when the clock ticks on a fraction f of the instructions. */
  function Span(k: int, n: real, gap: real, f: real): real
    requires f != 0.0
  {
    k as real * n + (k - 1) as real * gap / f
  }

  /** What the plugin prints in profile mode. */
  function Hint(user: real, k: int, n: real): real
    requires k >= 2
  {
    (user - k as real * n) / (k - 1) as real
  }

  function Gap(total: real, user: real, k: int, n: real, userClock: bool): real
    requires k >= 2 && total != 0.0
  {
    if userClock then user / (k - 1) as real * (1.0 - k as real * n / total)
    else (total - k as real * n) / (k - 1) as real
  }

  function Sgap(total: real, user: real, k: int, n: real, userClock: bool): Outcome
  {
    if k < 2 then TooFewWindows
    else if total == 0.0 then NoRun
    else if k as real * n >= total then WindowsExceedRun
    else if userClock && user == 0.0 then NoUserInstructions
    else Plan(Gap(total, user, k, n, userClock), Hint(user, k, n))
  }

  // ---- what the gap is worth ----

  lemma Cancel(a: real, b: real)
    requires b != 0.0
    ensures a / b * b == a && b * (a / b) == a && a * b / b == a
  {
  }

  /** With the user clock the windows and gaps span the whole run exactly. */
  lemma UserGapSpansTheRun(total: real, user: real, k: int, n: real)
    requires Sgap(total, user, k, n, true).Plan?
    ensures user / total != 0.0
    ensures Span(k, n, Sgap(total, user, k, n, true).gap, user / total) == total
  {
  }

  /** With the all-instruction clock, likewise. */
  lemma AllGapSpansTheRun(total: real, user: real, k: int, n: real)
    requires Sgap(total, user, k, n, false).Plan?
    ensures Span(k, n, Sgap(total, user, k, n, false).gap, 1.0) == total
  {
    Cancel(total - k as real * n, (k - 1) as real);
  }

  lemma Quotient(a: real, c: real, q: real)
    requires c != 0.0 && c * q == a
    ensures a / c == q
  {
  }

  /** Algebra of the shortfall, with kn for the instructions inside windows. */
  lemma Shortfall(total: real, user: real, f: real, kn: real)
    requires f != 0.0 && f * total == user
    ensures total - (kn + (user - kn) / f) == kn * (1.0 - f) / f
  {
  }

  lemma ZeroProduct(a: real, b: real)
    ensures a * b == 0.0 <==> a == 0.0 || b == 0.0
  {
  }

  lemma ZeroQuotient(kn: real, f: real)
    requires f != 0.0
    ensures kn * (1.0 - f) / f == 0.0 <==> kn == 0.0 || f == 1.0
  {
    var p := kn * (1.0 - f);
    ZeroProduct(kn, 1.0 - f);
    Cancel(p, f);
    if p == 0.0 {
      Quotient(p, f, 0.0);
    }
  }

  lemma SpanOf(k: int, n: real, gap: real, f: real, d: real)
    requires f != 0.0 && (k - 1) as real * gap == d
    ensures Span(k, n, gap, f) == k as real * n + d / f
  {
  }

  /** The hint subtracts all-instruction windows from a user-only count: its windows fall short of the run by
      K*N*(1-f)/f, which is nothing exactly when every instruction is a user one (or the windows are
      empty). */
  lemma HintFallsShort(total: real, user: real, k: int, n: real)
    requires Sgap(total, user, k, n, true).Plan?
    ensures user / total != 0.0
    ensures var f := user / total;
            var short := total - Span(k, n, Sgap(total, user, k, n, true).hint, f);
            && short == k as real * n * (1.0 - f) / f
            && (short == 0.0 <==> f == 1.0 || n == 0.0)
  {
    var f, kn := user / total, k as real * n;
    Cancel(user, total);
    assert f != 0.0;
    Cancel(user - kn, (k - 1) as real);
    SpanOf(k, n, Hint(user, k, n), f, user - kn);
    Shortfall(total, user, f, kn);
    ZeroQuotient(kn, f);
    ZeroProduct(k as real, n);
  }

  /** Half user instructions, two windows of 10 in a run of 100: the hint's windows span 80. */
  lemma HintCanFallShort()
    ensures Sgap(100.0, 50.0, 2, 10.0, true).Plan?
    ensures Span(2, 10.0, Sgap(100.0, 50.0, 2, 10.0, true).hint, 50.0 / 100.0) == 80.0
  {
    Cancel(30.0, 50.0 / 100.0);
  }

  // ---- the sampling machine ----

  /** Where the last of k windows ends. */
  function LastEnd(cfg: Config, xs: seq<RawRecord>, k: nat): nat
    requires k > 0
  {
    WindowStart(cfg, xs, k - 1) + cfg.sampleLen
  }

  /** With the all-instruction clock, k windows end at k*N + (k-1)*G. */
  lemma AllClockSpan(cfg: Config, xs: seq<RawRecord>, k: nat)
    requires !cfg.clockUser && cfg.sampleLen > 0 && k > 0
    requires k * cfg.sampleLen + (k - 1) * cfg.sampleGap <= |xs|
    ensures LastEnd(cfg, xs, k) == k * cfg.sampleLen + (k - 1) * cfg.sampleGap
  {
    var n, g := cfg.sampleLen, cfg.sampleGap;
    assert (k - 1) * (n + g) == k * n - n + (k - 1) * g;
    AllClockStarts(cfg, xs, k - 1);
  }

  /** So a configured gap equal to sgap's makes the windows end exactly at the end of the run. */
  lemma AllClockCoversTheRun(cfg: Config, xs: seq<RawRecord>, k: nat, user: real)
    requires !cfg.clockUser && cfg.sampleLen > 0
    requires Sgap(|xs| as real, user, k, cfg.sampleLen as real, false).Plan?
    requires cfg.sampleGap as real == Sgap(|xs| as real, user, k, cfg.sampleLen as real, false).gap
    ensures LastEnd(cfg, xs, k) == |xs|
  {
    var n, g := cfg.sampleLen, cfg.sampleGap;
    AllGapSpansTheRun(|xs| as real, user, k, n as real);
    assert (k * n + (k - 1) * g) as real == k as real * n as real + (k - 1) as real * g as real;
    AllClockSpan(cfg, xs, k);
  }

  /** The instructions between window j - 1 and window j. */
  function Skipped(cfg: Config, xs: seq<RawRecord>, j: nat): int
    requires j > 0
  {
    WindowStart(cfg, xs, j) - LastEnd(cfg, xs, j)
  }

  /** Those of them that tick the clock. */
  function SkippedTicks(cfg: Config, xs: seq<RawRecord>, j: nat): nat
    requires j > 0
  {
    Ticks(cfg, xs[..Min(WindowStart(cfg, xs, j), |xs|)], LastEnd(cfg, xs, j))
  }

  /** All the gaps before window k - 1. */
  function GapLength(cfg: Config, xs: seq<RawRecord>, k: nat): int
  {
    if k <= 1 then 0 else GapLength(cfg, xs, k - 1) + Skipped(cfg, xs, k - 1)
  }

  function GapTicks(cfg: Config, xs: seq<RawRecord>, k: nat): nat
  {
    if k <= 1 then 0 else GapTicks(cfg, xs, k - 1) + SkippedTicks(cfg, xs, k - 1)
  }

  ghost predicate Begin(cfg: Config, xs: seq<RawRecord>, k: nat)
  {
    forall j :: 0 < j < k ==> WindowStart(cfg, xs, j) < |xs|
  }

  /** The machine spends exactly sample_gap clock ticks in every gap, and everything else is windows. */
  lemma {:induction false} GapsOfTheMachine(cfg: Config, xs: seq<RawRecord>, k: nat)
    requires k > 0 && Begin(cfg, xs, k)
    ensures LastEnd(cfg, xs, k) == k * cfg.sampleLen + GapLength(cfg, xs, k)
    ensures GapTicks(cfg, xs, k) == (k - 1) * cfg.sampleGap
  {
    if k == 1 {
    } else {
      GapsOfTheMachine(cfg, xs, k - 1);
      assert WindowStart(cfg, xs, k - 1) < |xs|;
      SeekMeaning(cfg, xs, LastEnd(cfg, xs, k - 1), cfg.sampleGap);
      assert k * cfg.sampleLen == (k - 1) * cfg.sampleLen + cfg.sampleLen;
      assert (k - 1) * cfg.sampleGap == (k - 2) * cfg.sampleGap + cfg.sampleGap;
    }
  }

  lemma SameScaled(a: real, b: real, f: real)
    requires f != 0.0
    ensures f * a == f * b <==> a == b
  {
    ZeroProduct(f, a - b);
    assert f * a - f * b == f * (a - b);
  }

  lemma SpanGap(k: int, n: real, g: real, f: real, total: real)
    requires f != 0.0 && Span(k, n, g, f) == total
    ensures (k - 1) as real * g == f * (total - k as real * n)
  {
    Cancel((k - 1) as real * g, f);
  }

  /** Windows and gaps reach the end of the run exactly when the gaps hold the fraction f of clock ticks. */
  lemma GapsReach(k: int, n: real, g: real, f: real, total: real, gaps: real)
    requires f != 0.0 && Span(k, n, g, f) == total
    ensures k as real * n + gaps == total <==> (k - 1) as real * g == f * gaps
  {
    SpanGap(k, n, g, f, total);
    SameScaled(total - k as real * n, gaps, f);
  }

  lemma AsReals(k: nat, n: nat, g: nat, gaps: int)
    requires k > 0
    ensures (k * n + gaps) as real == k as real * n as real + gaps as real
    ensures ((k - 1) * g) as real == (k - 1) as real * g as real
  {
    assert (k * n) as real == k as real * n as real;
  }

  /** A fraction f of the instructions tick the clock. */
  predicate AsRich(ticks: int, instructions: int, f: real)
  {
    ticks as real == f * instructions as real
  }

  lemma CountsReach(k: nat, n: nat, g: nat, total: nat, f: real, gaps: int, end: int, ticks: int)
    requires k > 0 && f != 0.0 && Span(k, n as real, g as real, f) == total as real
    requires end == k * n + gaps && ticks == (k - 1) * g
    ensures end == total <==> AsRich(ticks, gaps, f)
  {
    AsReals(k, n, g, gaps);
    GapsReach(k, n as real, g as real, f, total as real, gaps as real);
  }

  /** A gap whose nominal span is the run makes the machine's windows end there exactly when its gaps hold the
      fraction f of clock ticks. */
  lemma SpanIsReached(cfg: Config, xs: seq<RawRecord>, k: nat, f: real)
    requires k > 0 && f != 0.0 && Begin(cfg, xs, k)
    requires Span(k, cfg.sampleLen as real, cfg.sampleGap as real, f) == |xs| as real
    ensures LastEnd(cfg, xs, k) == |xs| <==> AsRich(GapTicks(cfg, xs, k), GapLength(cfg, xs, k), f)
  {
    GapsOfTheMachine(cfg, xs, k);
    CountsReach(k, cfg.sampleLen, cfg.sampleGap, |xs|, f, GapLength(cfg, xs, k), LastEnd(cfg, xs, k),
                GapTicks(cfg, xs, k));
  }

  /** With the user clock and sgap's gap, the machine's K windows end at the end of the run if and only if the
      gaps, taken together, are as rich in user instructions as the run. */
  lemma UserClockCoversTheRun(cfg: Config, xs: seq<RawRecord>, k: nat)
    requires cfg.clockUser && Begin(cfg, xs, k)
    requires Sgap(|xs| as real, Ticks(cfg, xs, 0) as real, k, cfg.sampleLen as real, true).Plan?
    requires cfg.sampleGap as real == Sgap(|xs| as real, Ticks(cfg, xs, 0) as real, k, cfg.sampleLen as real, true).gap
    ensures var f := Ticks(cfg, xs, 0) as real / |xs| as real;
            LastEnd(cfg, xs, k) == |xs| <==> AsRich(GapTicks(cfg, xs, k), GapLength(cfg, xs, k), f)
  {
    var total, user := |xs| as real, Ticks(cfg, xs, 0) as real;
    UserGapSpansTheRun(total, user, k, cfg.sampleLen as real);
    SpanIsReached(cfg, xs, k, user / total);
  }

  const TWO_WINDOWS: Config := Config(Layout(false, false), 0, X86, 0, 0, 1, 1, 0, true)
  const USER_CODE: U64 := 0x1000
  const KERNEL_CODE: U64 := 0xFFFF_8000_0000_0000

  function Nop(vaddr: U64): Event
  {
    Exec(vaddr, [0x90], true)
  }

  function Four(a: U64, b: U64): seq<Event>
  {
    [Nop(a)] + [Nop(b)] + [Nop(b)] + [Nop(a)]
  }

  lemma NopSnoc(cfg: Config, es: seq<Event>, vaddr: U64)
    ensures Executed(cfg, es + [Nop(vaddr)]) == Executed(cfg, es) + [NewRecord(cfg, vaddr, [0x90])]
  {
    assert (es + [Nop(vaddr)])[..|es|] == es;
  }

  lemma FourRun(cfg: Config, a: U64, b: U64)
    ensures var x, y := NewRecord(cfg, a, [0x90]), NewRecord(cfg, b, [0x90]);
            Executed(cfg, Four(a, b)) == [x, y, y, x]
  {
    assert [Nop(a)] == [] + [Nop(a)];
    NopSnoc(cfg, [], a);
    NopSnoc(cfg, [Nop(a)], b);
    NopSnoc(cfg, [Nop(a)] + [Nop(b)], b);
    NopSnoc(cfg, [Nop(a)] + [Nop(b)] + [Nop(b)], a);
  }

  /** A kernel instruction, two user ones, a kernel one. */
  function EarlyUser(): seq<Event>
  {
    Four(KERNEL_CODE, USER_CODE)
  }

  /** Half of this run's instructions are user ones, but both of them come early: with sgap's gap the second
      window ends one instruction before the run does. */
  lemma UserClockCanFallShort()
    ensures var cfg, xs := TWO_WINDOWS, Executed(TWO_WINDOWS, EarlyUser());
            && cfg.clockUser && Begin(cfg, xs, 2) && |xs| == 4 && Ticks(cfg, xs, 0) == 2
            && Sgap(4.0, 2.0, 2, cfg.sampleLen as real, true).Plan?
            && Sgap(4.0, 2.0, 2, cfg.sampleLen as real, true).gap == cfg.sampleGap as real
            && LastEnd(cfg, xs, 2) == 3
  {
    FourRun(TWO_WINDOWS, KERNEL_CODE, USER_CODE);
    var cfg, xs := TWO_WINDOWS, Executed(TWO_WINDOWS, EarlyUser());
    assert Ticks(cfg, xs, 2) == 1 + Ticks(cfg, xs, 3) && Ticks(cfg, xs, 3) == Ticks(cfg, xs, 4) == 0;
    assert Seek(cfg, xs, 2, 0) == 2;
    assert WindowStart(cfg, xs, 1) == Seek(cfg, xs, 1, 1) == 2;
  }
}
