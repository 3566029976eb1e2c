/**
  What credits do to the value per share, over every run of the deposit protocol: the pipeline reads the value per
  share (src/main.ts:306-313), recredits may run while it waits (src/vault/depositPipeline.ts:185-206), and only then
  it credits.
 */
module DepositNav {
  import opened Prelude
  import opened ShareMath
  import opened Ledger
  import opened DepositProtocol

  /** The credit a step attempts. */
  function CreditOf(s: State, e: Step): Option<CreditParams> {
    if e.CreditRuns? && s.pipe.Priced? then Some(PipelineCredit(s.pipe))
    else if e.RecreditAnswers? && s.recredit.Some? && e.mid.Some?
    then Some(RecreditParams(s.tables, s.recredit.value, e.mid.value, e.now))
    else None
  }

  predicate Credits(s: State, e: Step) {
    var p := CreditOf(s, e);
    p.Some? && Credit(s.tables, p.value).Some?
  }

  predicate PriceOk(m: Mid) {
    0.0 <= m.solUsd && 0.0 <= m.bertUsd
  }

  ghost predicate OnePerTs(rows: seq<Snapshot>) {
    DistinctTs(rows) && rows != []
  }

  /**
    The pool has shares, prices are not negative, a credit's snapshot is not older than one stored, and what happens
    elsewhere leaves one snapshot per timestamp.
   */
  ghost predicate Ordered(s: State, e: Step) {
    && TotalShares(s.tables.shares) > 0.0
    && (e.OracleAnswers? && e.mid.Some? ==> PriceOk(e.mid.value))
    && (e.RecreditAnswers? && e.mid.Some? ==> PriceOk(e.mid.value))
    && (Credits(s, e) ==> NotBefore(s.tables.snapshots, CreditOf(s, e).value.now))
    && (e.Elsewhere? ==> OnePerTs(e.tables.snapshots))
  }

  ghost predicate OrderedRun(s: State, es: seq<Step>) {
    forall k :: 0 <= k < |es| ==> Ordered(Run(s, es[..k]), es[k])
  }

  /** A value per share that was read is still the current one. */
  ghost predicate NavOk(s: State) {
    && OnePerTs(s.tables.snapshots)
    && (s.pipe.Valued? || s.pipe.Priced? ==> PriceOk(s.pipe.mid))
    && (s.pipe.Priced? ==> s.pipe.navPerShare == SnapshotNav(s.tables))
  }

  /**
    The credit raises the latest value by exactly its USD value, at the current value per share, which it leaves as
    it is; the latest snapshot is its own.
   */
  ghost predicate KeepsNav(t: Tables, u: Tables, p: CreditParams) {
    && p.navPerShare == SnapshotNav(t) == SnapshotNav(u)
    && Latest(t.snapshots).Some? && Latest(u.snapshots).Some?
    && Latest(u.snapshots).value.totalValueUsd == Latest(t.snapshots).value.totalValueUsd + DepositUsd(p)
    && Latest(u.snapshots).value.totalShares == TotalShares(u.shares)
    && Latest(u.snapshots).value.navPerShare == SnapshotNav(u) && Latest(u.snapshots).value.ts == p.now
    && Latest(u.snapshots).value.source.DepositSource?
  }

  lemma {:induction false} DepositWorth(p: CreditParams)
    requires PriceOk(p.mid)
    ensures 0.0 <= DepositUsd(p)
  {
    Product(p.solLamports as real / SOL_UNIT, p.mid.solUsd);
    Product(p.bertRaw as real / BERT_UNIT, p.mid.bertUsd);
  }

  lemma {:induction false} Product(a: real, b: real)
    requires 0.0 <= a && 0.0 <= b
    ensures 0.0 <= a * b
  {
  }

  lemma {:induction false} CreditWrites(t: Tables, p: CreditParams)
    requires Credit(t, p).Some? && OnePerTs(t.snapshots)
    ensures OnePerTs(Credit(t, p).value.snapshots)
  {
    hide DepositUsd, Ledger.AddShares, TotalShares;
    var u := Credit(t, p).value;
    var minted := ComputeSharesForDeposit(DepositUsd(p), p.navPerShare).value;
    var s := CreditSnapshot(p, TotalShares(u.shares));
    assert u.snapshots == Upsert(t.snapshots, s);
    UpsertLatest(t.snapshots, s);
    var k := UpsertShape(t.snapshots, s);
  }

  lemma {:induction false} CreditAtCurrentNav(t: Tables, p: CreditParams)
    requires OnePerTs(t.snapshots) && TotalShares(t.shares) > 0.0 && PriceOk(p.mid)
    requires p.navPerShare == SnapshotNav(t) && NotBefore(t.snapshots, p.now) && Credit(t, p).Some?
    ensures KeepsNav(t, Credit(t, p).value, p) && OnePerTs(Credit(t, p).value.snapshots)
  {
    LatestIsNewest(t.snapshots);
    DepositWorth(p);
    CreditKeepsNav(t, p);
    CreditWrites(t, p);
    hide Credit;
  }

  /** Audit rows do not matter here. */
  lemma {:induction false} SameValue(t: Tables, u: Tables)
    requires LeavesValue(t, u)
    ensures SnapshotNav(u) == SnapshotNav(t)
  {
  }

  lemma {:induction false} CreditStep(s: State, e: Step)
    requires NavOk(s) && Ordered(s, e) && Credits(s, e)
    ensures Next(s, e).Some? && NavOk(Next(s, e).value)
    ensures KeepsNav(s.tables, Next(s, e).value.tables, CreditOf(s, e).value)
  {
    hide Credit, SnapshotNav, TotalShares, Latest, DepositUsd, OnePerTs, NotBefore, Scan;
    var p := CreditOf(s, e).value;
    CreditAtCurrentNav(s.tables, p);
    var u := Credit(s.tables, p).value;
    if e.RecreditAnswers? {
      SameValue(u, Next(s, e).value.tables);
    }
  }

  lemma {:induction false} OtherStep(s: State, e: Step)
    requires NavOk(s) && Ordered(s, e) && !Credits(s, e) && Next(s, e).Some?
    ensures NavOk(Next(s, e).value)
  {
    hide Credit, SnapshotNav, TotalShares, Latest, OnePerTs, NotBefore, Scan;
    var r := Next(s, e).value;
    if LeavesValue(s.tables, r.tables) {
      SameValue(s.tables, r.tables);
    }
  }

  lemma {:induction false} RunKeepsNav(s: State, es: seq<Step>)
    requires NavOk(s) && OrderedRun(s, es)
    ensures NavOk(Run(s, es))
  {
    hide NavOk, Ordered, Next, Credits;
    if es != [] {
      var n := |es| - 1;
      forall k | 0 <= k < n ensures Ordered(Run(s, es[..n][..k]), es[..n][k]) {
        assert es[..n][..k] == es[..k];
        assert Ordered(Run(s, es[..k]), es[k]);
      }
      RunKeepsNav(s, es[..n]);
      var before := Run(s, es[..n]);
      assert Ordered(before, es[n]);
      if Credits(before, es[n]) {
        CreditStep(before, es[n]);
      } else if Next(before, es[n]).Some? {
        OtherStep(before, es[n]);
      }
    }
  }

  /**
    In every run of a bootstrapped vault whose snapshot timestamps never go back and whose pool keeps shares, each
    credit, by the pipeline or by an operator, uses the value per share current at that moment, raises the latest
    snapshot's value by exactly the deposit's USD value and leaves the value per share as it was.
   */
  lemma {:induction false} CreditsKeepNav(operator: User, initialNavUsd: real, now: int, es: seq<Step>, k: nat)
    requires OrderedRun(State(Bootstrapped(operator, initialNavUsd, now), Waiting, None), es) && k < |es|
    requires Credits(Run(State(Bootstrapped(operator, initialNavUsd, now), Waiting, None), es[..k]), es[k])
    ensures var start := State(Bootstrapped(operator, initialNavUsd, now), Waiting, None);
            var before := Run(start, es[..k]);
            KeepsNav(before.tables, Run(start, es[..k + 1]).tables, CreditOf(before, es[k]).value)
  {
    hide Ordered, Next, Credits, Bootstrapped, CreditOf;
    var start := State(Bootstrapped(operator, initialNavUsd, now), Waiting, None);
    BootstrappedOk(operator, initialNavUsd, now);
    forall j | 0 <= j < k ensures Ordered(Run(start, es[..k][..j]), es[..k][j]) {
      assert es[..k][..j] == es[..j];
      assert Ordered(Run(start, es[..j]), es[j]);
    }
    RunKeepsNav(start, es[..k]);
    assert Ordered(Run(start, es[..k]), es[k]);
    CreditStep(Run(start, es[..k]), es[k]);
    assert es[..k + 1][..k] == es[..k];
  }

  lemma {:induction false} BootstrappedOk(operator: User, initialNavUsd: real, now: int)
    ensures NavOk(State(Bootstrapped(operator, initialNavUsd, now), Waiting, None))
  {
  }

  // ----- a credit under an older timestamp

  lemma {:induction false} MoreShares(v: real, t: real, minted: real)
    requires 0.0 < v && 0.0 < t && 0.0 <= minted
    ensures v / (t + minted) <= v / t
    ensures v / (t + minted) == v / t <==> minted == 0.0
  {
    var a, b := v / t, v / (t + minted);
    assert a * t == v && b * (t + minted) == v;
    assert 0.0 < a && 0.0 < b;
    assert (a - b) * t == b * minted;
    if minted > 0.0 {
      assert b * minted > 0.0;
    }
  }

  lemma {:induction false} MintedNothing(d: real, nav: real)
    requires 0.0 < nav && 0.0 <= d
    ensures 0.0 <= d / nav && (d / nav == 0.0 <==> d == 0.0)
  {
    assert d / nav * nav == d;
  }

  lemma {:induction false} StaleCredit(t: Tables, p: CreditParams)
    requires OnePerTs(t.snapshots) && TotalShares(t.shares) > 0.0 && PriceOk(p.mid) && Credit(t, p).Some?
    requires p.navPerShare == SnapshotNav(t) && !NotBefore(t.snapshots, p.now)
    ensures SnapshotNav(Credit(t, p).value) <= SnapshotNav(t)
    ensures SnapshotNav(Credit(t, p).value) == SnapshotNav(t) <==> DepositUsd(p) == 0.0
  {
    CreditEffect(t, p);
    var u := Credit(t, p).value;
    UpsertOlder(t.snapshots, CreditSnapshot(p, TotalShares(u.shares)));
    assert Latest(u.snapshots) == Latest(t.snapshots);
    LatestIsNewest(t.snapshots);
    DepositWorth(p);
    hide Credit, DepositUsd, TotalShares, Latest;
    var v := Latest(t.snapshots).value.totalValueUsd;
    assert p.navPerShare == v / TotalShares(t.shares) && 0.0 < p.navPerShare;
    PositiveTotal(v, TotalShares(t.shares));
    MintedNothing(DepositUsd(p), p.navPerShare);
    MoreShares(v, TotalShares(t.shares), DepositUsd(p) / p.navPerShare);
  }

  lemma {:induction false} PositiveTotal(v: real, t: real)
    requires 0.0 < t && 0.0 < v / t
    ensures 0.0 < v
  {
    assert v / t * t == v;
  }

  /**
    A credit at the current value per share leaves it unchanged if and only if no stored snapshot is later than its
    timestamp or it is worth nothing; otherwise the value per share falls.
   */
  lemma {:induction false} CreditKeepsNavIff(t: Tables, p: CreditParams)
    requires OnePerTs(t.snapshots) && TotalShares(t.shares) > 0.0 && PriceOk(p.mid) && Credit(t, p).Some?
    requires p.navPerShare == SnapshotNav(t)
    ensures SnapshotNav(Credit(t, p).value) <= SnapshotNav(t)
    ensures SnapshotNav(Credit(t, p).value) == SnapshotNav(t) <==>
              NotBefore(t.snapshots, p.now) || DepositUsd(p) == 0.0
  {
    hide Credit, DepositUsd, TotalShares, SnapshotNav;
    if NotBefore(t.snapshots, p.now) {
      CreditAtCurrentNav(t, p);
    } else {
      StaleCredit(t, p);
    }
  }

  // The pipeline stamps its credit with the time of the sweep, so a recredit that runs while it waits is later.

  function TimeOf(e: Step): Option<int> {
    match e
    case Detect(_, at) => Some(at)
    case Preflight(_, at) => Some(at)
    case SweepFails(at) => Some(at)
    case SweepLands(_, at) => Some(at)
    case OracleAnswers(_, at) => Some(at)
    case CreditRuns(at) => Some(at)
    case RecreditAnswers(_, now, _) => Some(now)
    case _ => None
  }

  /** The clock never goes back from one step to the next. */
  ghost predicate ClockForward(es: seq<Step>) {
    forall i, j :: 0 <= i < j < |es| && TimeOf(es[i]).Some? && TimeOf(es[j]).Some? ==>
      TimeOf(es[i]).value <= TimeOf(es[j]).value
  }

  const DOLLAR := Mid(1.0, 1.0)
  const FIRST := Inflow(7, "a", 1000000000, 0, 0)
  const SECOND := Inflow(8, "b", 1000000000, 0, 0)

  /** The first inflow is swept but not credited; it is recredited between the second one's sweep and its credit. */
  const CROSSED: seq<Step> := [
    Detect(FIRST, 1), Preflight(true, 2), SweepLands("sa", 3), OracleAnswers(None, 4),
    Detect(SECOND, 5), Preflight(true, 6), SweepLands("sb", 7), OracleAnswers(Some(DOLLAR), 8), ReadNav,
    RecreditScans("a", 5000), RecreditAnswers(Some(DOLLAR), 9, 1), CreditRuns(10)]

  const ROWS: seq<AuditRow> := [
    AuditRow(1, 7, DepositDetected("a", 1000000000, 0)), AuditRow(3, 7, DepositSwept("a", "sa", 1000000000, 0, 0)),
    AuditRow(4, 7, DepositSweepFailed("a")),
    AuditRow(5, 8, DepositDetected("b", 1000000000, 0)), AuditRow(7, 8, DepositSwept("b", "sb", 1000000000, 0, 0))]

  function Boot(): Tables {
    Bootstrapped(1, 100.0, 0)
  }

  function Audited(n: nat): Tables
    requires n <= |ROWS|
  {
    Boot().(audit := Boot().audit + ROWS[..n])
  }

  lemma {:induction false} RunSnoc(s: State, es: seq<Step>, e: Step, next: State)
    requires Next(s, e) == Some(next)
    ensures forall start :: Run(start, es) == s ==> Run(start, es + [e]) == next
  {
    assert (es + [e])[..|es|] == es;
  }

  lemma {:induction false} CrossedBegins()
    ensures Run(State(Boot(), Waiting, None), CROSSED[..4]) == State(Audited(3), Waiting, None)
  {
    hide Boot, SnapshotNav, Credit;
    var start, es := State(Boot(), Waiting, None), CROSSED;
    assert Boot().audit + ROWS[..0] == Boot().audit;
    assert forall n :: 0 <= n < 3 ==> Boot().audit + ROWS[..n + 1] == Boot().audit + ROWS[..n] + [ROWS[n]];
    assert es[..0] == [] && forall k :: 0 <= k < 4 ==> es[..k + 1] == es[..k] + [es[k]];
    RunSnoc(start, es[..0], es[0], State(Audited(1), Detected(FIRST), None));
    RunSnoc(State(Audited(1), Detected(FIRST), None), es[..1], es[1], State(Audited(1), Sweeping(FIRST), None));
    RunSnoc(State(Audited(1), Sweeping(FIRST), None), es[..2], es[2], State(Audited(2), Swept(FIRST, "sa", 3), None));
    RunSnoc(State(Audited(2), Swept(FIRST, "sa", 3), None), es[..3], es[3], State(Audited(3), Waiting, None));
  }

  function Waits(nav: real): Pipe {
    Priced(SECOND, "sb", 7, DOLLAR, nav)
  }

  lemma {:induction false} CrossedWaits()
    ensures Run(State(Boot(), Waiting, None), CROSSED[..9]) == State(Audited(5), Waits(SnapshotNav(Audited(5))), None)
  {
    CrossedBegins();
    hide Boot, SnapshotNav, Credit, Run;
    var start, es := State(Boot(), Waiting, None), CROSSED;
    assert forall n :: 3 <= n < 5 ==> Boot().audit + ROWS[..n + 1] == Boot().audit + ROWS[..n] + [ROWS[n]];
    assert forall k :: 4 <= k < 9 ==> es[..k + 1] == es[..k] + [es[k]];
    RunSnoc(State(Audited(3), Waiting, None), es[..4], es[4], State(Audited(4), Detected(SECOND), None));
    RunSnoc(State(Audited(4), Detected(SECOND), None), es[..5], es[5], State(Audited(4), Sweeping(SECOND), None));
    RunSnoc(State(Audited(4), Sweeping(SECOND), None), es[..6], es[6], State(Audited(5), Swept(SECOND, "sb", 7), None));
    RunSnoc(State(Audited(5), Swept(SECOND, "sb", 7), None), es[..7], es[7],
            State(Audited(5), Valued(SECOND, "sb", 7, DOLLAR), None));
    RunSnoc(State(Audited(5), Valued(SECOND, "sb", 7, DOLLAR), None), es[..8], es[8],
            State(Audited(5), Waits(SnapshotNav(Audited(5))), None));
  }

  const RECOVERED := Recovered(7, "a", "sa", 1000000000, 0, 0)

  lemma {:induction false} CrossedScans()
    ensures Scan(Audited(5).audit, 5000, "a") == Some(RECOVERED)
  {
    var rows := Audited(5).audit;
    assert rows[1] == ROWS[0] && rows[2] == ROWS[1] && rows[3] == ROWS[2] && rows[4] == ROWS[3] && rows[5] == ROWS[4];
    assert IsDetected(rows[1], "a") && IsSwept(rows[2], "a");
    assert NewestDetected(rows, 0, 6, "a") == 1 && NewestSwept(rows, 0, 6, "a") == 2;
  }

  /** A hundred dollars and a hundred shares. */
  lemma {:induction false} BootValue()
    ensures TotalShares(Audited(5).shares) == 100.0 && SnapshotNav(Audited(5)) == 1.0 && OnePerTs(Audited(5).snapshots)
    ensures Audited(5).deposits == [] && NotBefore(Audited(5).snapshots, 9)
  {
    assert Boot().shares[1..] == [];
    assert Boot().snapshots[1..] == [];
  }

  function Scanned(): State {
    State(Audited(5), Waits(1.0), Some(RECOVERED))
  }

  /** The recredit lands first, at 9: one deposit, and a snapshot later than the sweep. */
  lemma {:induction false} RecreditLands() returns (a: State)
    ensures Next(Scanned(), CROSSED[10]) == Some(a) && a.pipe == Waits(1.0)
    ensures var t := a.tables;
            && OnePerTs(t.snapshots) && TotalShares(t.shares) == 101.0 && SnapshotNav(t) == 1.0
            && |t.deposits| == 1 && !HasDeposit(t, "b") && !NotBefore(t.snapshots, 7)
  {
    BootValue();
    var s := Scanned();
    var p := RecreditParams(s.tables, RECOVERED, DOLLAR, 9);
    CreditedFirst(s.tables, p, "b");
    hide Audited, SnapshotNav, Credit, TotalShares, Latest, OnePerTs;
    var u := Credit(s.tables, p).value;
    a := Recredited(s, u, RECOVERED, 9, 1);
    SameValue(u, a.tables);
  }

  /** The pipeline's own credit is then stamped 7. */
  lemma {:induction false} PipelineLands(a: State)
    requires a.pipe == Waits(1.0) && OnePerTs(a.tables.snapshots) && TotalShares(a.tables.shares) == 101.0
    requires SnapshotNav(a.tables) == 1.0 && |a.tables.deposits| == 1 && !HasDeposit(a.tables, "b")
    requires !NotBefore(a.tables.snapshots, 7)
    ensures var b := Next(a, CROSSED[11]);
            b.Some? && |b.value.tables.deposits| == 2 && SnapshotNav(b.value.tables) < 1.0
  {
    var q := PipelineCredit(a.pipe);
    CreditEffect(a.tables, q);
    DollarDeposit(q);
    hide SnapshotNav, Credit, DepositUsd, TotalShares, Latest, NotBefore, OnePerTs;
    CreditKeepsNavIff(a.tables, q);
  }

  lemma {:induction false} DollarDeposit(p: CreditParams)
    requires p.mid == DOLLAR && p.solLamports == 1000000000 && p.bertRaw == 0
    ensures DepositUsd(p) == 1.0
  {
  }

  lemma {:induction false} CreditedFirst(t: Tables, p: CreditParams, other: Sig)
    requires OnePerTs(t.snapshots) && TotalShares(t.shares) == 100.0 && t.deposits == []
        && NotBefore(t.snapshots, p.now)
    requires p.navPerShare == SnapshotNav(t) == 1.0 && p.mid == DOLLAR && p.solLamports == 1000000000 && p.bertRaw == 0
    requires p.inboundTxSig != other
    ensures Credit(t, p).Some?
    ensures var u := Credit(t, p).value;
            && OnePerTs(u.snapshots) && TotalShares(u.shares) == 101.0 && SnapshotNav(u) == 1.0
            && |u.deposits| == 1 && !HasDeposit(u, other) && forall ts :: ts < p.now ==> !NotBefore(u.snapshots, ts)
  {
    hide Worth, DepositUsd, Fair;
    CreditEffect(t, p);
    CreditRow(t, p);
    DollarDeposit(p);
    var u := Credit(t, p).value;
    var s := CreditSnapshot(p, TotalShares(u.shares));
    assert u.snapshots == Upsert(t.snapshots, s);
    var k := UpsertShape(t.snapshots, s);
    assert u.snapshots[k].ts == p.now;
    hide Credit, SnapshotNav, TotalShares, Upsert, DepositUsd;
    CreditAtCurrentNav(t, p);
  }

  lemma {:induction false} CrossedRecovers()
    ensures Run(State(Boot(), Waiting, None), CROSSED[..10]) == Scanned()
  {
    CrossedWaits();
    CrossedScans();
    BootValue();
    hide Boot, SnapshotNav, Credit, Run, Scan;
    var waits := State(Audited(5), Waits(1.0), None);
    assert Next(waits, CROSSED[9]) == Some(Scanned());
    assert CROSSED[..10] == CROSSED[..9] + [CROSSED[9]];
    RunSnoc(waits, CROSSED[..9], CROSSED[9], Scanned());
  }

  lemma {:induction false} CrossedForward()
    ensures ClockForward(CROSSED)
  {
  }

  /** In a run whose clock never goes back, a worthwhile credit by the pipeline lowers the value per share. */
  lemma {:induction false} StaleCreditRun()
    ensures ClockForward(CROSSED)
    ensures var start := State(Boot(), Waiting, None);
            && Run(start, CROSSED[..10]).tables == Audited(5) && SnapshotNav(Audited(5)) == 1.0
            && |Run(start, CROSSED).tables.deposits| == 2 && SnapshotNav(Run(start, CROSSED).tables) < 1.0
  {
    CrossedForward();
    CrossedRecovers();
    BootValue();
    hide ClockForward, Boot, Audited, SnapshotNav, Run, Next, OnePerTs, NotBefore, TotalShares;
    var es := CROSSED;
    var a := RecreditLands();
    PipelineLands(a);
    assert es[..11] == es[..10] + [es[10]] && es == es[..11] + [es[11]];
    RunSnoc(Scanned(), es[..10], es[10], a);
    RunSnoc(a, es[..11], es[11], Next(a, es[11]).value);
  }
}
