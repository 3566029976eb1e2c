/**
  The deposit watcher, pipeline and recredit command as the source writes them (src/vault/depositWatcher.ts:27-61,
  src/vault/depositPipeline.ts:60-218, src/vault/operatorCommands.ts:181-336): methods that work on the store in place,
  with awaited calls answered by an environment and the recredit command running at every await.
 */
module DepositPipeline {
  import opened Prelude
  import opened ShareMath
  import L = Ledger
  import opened DepositorStore
  import opened DepositProtocol

  /** What becomes of the sweep once the oracle is healthy. */
  datatype SweepOutcome = SecretsMissing | BuildFails | NothingToSweep | BlockhashThrows | SubmitThrows
    | Landed(sweepTxSig: L.Sig)

  /** The two halves of the recredit command, split at its await. */
  datatype Command = Begin(inboundTxSig: L.Sig, limit: nat) | Finish(mid: Option<Mid>, now: int, operator: L.User)

  datatype InflowEnv = InflowEnv(
    detectedAt: int, preflight: Answer<Option<Mid>>, preflightAt: int, sweep: SweepOutcome, sweptAt: int,
      mid: Answer<Option<Mid>>, failedAt: int,
    others: nat -> seq<Command>)

  function StepOf(c: Command): Step {
    match c
    case Begin(sig, limit) => RecreditScans(sig, limit)
    case Finish(mid, now, operator) => RecreditAnswers(mid, now, operator)
  }

  function Steps(cs: seq<Command>): seq<Step> {
    seq(|cs|, i requires 0 <= i < |cs| => StepOf(cs[i]))
  }

  ghost function Advance(s: State, e: Step): State {
    var n := Next(s, e);
    if n.Some? then n.value else s
  }

  // ----- onInflow as runs of protocol steps

  /** From the second oracle read on: the credit, at the snapshot value per share of that moment. */
  ghost function AfterSweep(s: State, env: InflowEnv): State {
    var w := Run(s, Steps(env.others(2)));
    if env.mid.Threw? then Advance(w, PipeThrows)
    else
      var v := Advance(w, OracleAnswers(env.mid.value, env.failedAt));
      if env.mid.value.None? then v
      else Advance(Run(Advance(v, ReadNav), Steps(env.others(3))), CreditRuns(env.failedAt))
  }

  ghost function AfterPreflight(s: State, env: InflowEnv): State {
    var early := env.sweep.SecretsMissing? || env.sweep.BuildFails? || env.sweep.NothingToSweep?;
    var w := if early then s else Run(s, Steps(env.others(1)));
    match env.sweep
    case BuildFails => Advance(w, SweepFails(env.failedAt))
    case SubmitThrows => Advance(w, SweepFails(env.failedAt))
    case Landed(sweepTxSig) => AfterSweep(Advance(w, SweepLands(sweepTxSig, env.sweptAt)), env)
    case _ => Advance(w, PipeThrows)
  }

  ghost function Inflowed(s: State, ev: Inflow, env: InflowEnv): State {
    var w := Run(Advance(s, Detect(ev, env.detectedAt)), Steps(env.others(0)));
    if env.preflight.Threw? then Advance(w, PipeThrows)
    else if env.preflight.value.None? then Advance(w, Preflight(false, env.preflightAt))
    else AfterPreflight(Advance(w, Preflight(true, env.preflightAt)), env)
  }

  /** Reached by steps of the protocol. */
  ghost predicate Reaches(s: State, t: State) {
    exists es :: Run(s, es) == t
  }

  lemma {:induction false} RunAppend(s: State, a: seq<Step>, b: seq<Step>)
    ensures Run(s, a + b) == Run(Run(s, a), b)
  {
    hide Next;
    if b == [] {
      assert a + b == a;
    } else {
      var n := |b| - 1;
      RunAppend(s, a, b[..n]);
      assert (a + b)[..|a + b| - 1] == a + b[..n];
    }
  }

  lemma {:induction false} ReachesRun(s: State, t: State, es: seq<Step>)
    requires Reaches(s, t)
    ensures Reaches(s, Run(t, es))
  {
    hide Next;
    var front :| Run(s, front) == t;
    RunAppend(s, front, es);
  }

  lemma {:induction false} ReachesAdvance(s: State, t: State, e: Step)
    requires Reaches(s, t)
    ensures Reaches(s, Advance(t, e))
  {
    hide Next;
    assert [e][..0] == [];
    assert Run(t, []) == t;
    assert Run(t, [e]) == Advance(t, e);
    ReachesRun(s, t, [e]);
  }

  lemma {:induction false} ReachesSelf(s: State)
    ensures Reaches(s, s)
  {
    assert Run(s, []) == s;
  }

  lemma {:induction false} AfterSweepReached(s0: State, s: State, env: InflowEnv)
    requires Reaches(s0, s)
    ensures Reaches(s0, AfterSweep(s, env))
  {
    hide Next, Run, Reaches, Advance, L.SnapshotNav;
    ReachesRun(s0, s, Steps(env.others(2)));
    var w := Run(s, Steps(env.others(2)));
    if env.mid.Threw? {
      ReachesAdvance(s0, w, PipeThrows);
    } else {
      ReachesAdvance(s0, w, OracleAnswers(env.mid.value, env.failedAt));
      var v := Advance(w, OracleAnswers(env.mid.value, env.failedAt));
      ReachesAdvance(s0, v, ReadNav);
      var p := Advance(v, ReadNav);
      ReachesRun(s0, p, Steps(env.others(3)));
      ReachesAdvance(s0, Run(p, Steps(env.others(3))), CreditRuns(env.failedAt));
    }
  }

  lemma {:induction false} AfterPreflightReached(s0: State, s: State, env: InflowEnv)
    requires Reaches(s0, s)
    ensures Reaches(s0, AfterPreflight(s, env))
  {
    hide Next, Run, Reaches, Advance, AfterSweep;
    ReachesRun(s0, s, Steps(env.others(1)));
    var early := env.sweep.SecretsMissing? || env.sweep.BuildFails? || env.sweep.NothingToSweep?;
    var w := if early then s else Run(s, Steps(env.others(1)));
    ReachesAdvance(s0, w, SweepFails(env.failedAt));
    ReachesAdvance(s0, w, PipeThrows);
    if env.sweep.Landed? {
      ReachesAdvance(s0, w, SweepLands(env.sweep.sweepTxSig, env.sweptAt));
      AfterSweepReached(s0, Advance(w, SweepLands(env.sweep.sweepTxSig, env.sweptAt)), env);
    }
  }

  /** However the environment answers, handling an inflow is a run of the deposit protocol. */
  lemma {:induction false} InflowIsRun(s: State, ev: Inflow, env: InflowEnv)
    ensures Reaches(s, Inflowed(s, ev, env))
  {
    hide Next, Run, Reaches, Advance, AfterPreflight;
    ReachesSelf(s);
    ReachesAdvance(s, s, Detect(ev, env.detectedAt));
    var d := Advance(s, Detect(ev, env.detectedAt));
    ReachesRun(s, d, Steps(env.others(0)));
    var w := Run(d, Steps(env.others(0)));
    ReachesAdvance(s, w, PipeThrows);
    ReachesAdvance(s, w, Preflight(false, env.preflightAt));
    ReachesAdvance(s, w, Preflight(true, env.preflightAt));
    AfterPreflightReached(s, Advance(w, Preflight(true, env.preflightAt)), env);
  }

  // ----- deposits are never taken back

  ghost predicate KeepsDeposits(t: L.Tables, u: L.Tables) {
    |t.deposits| <= |u.deposits| && u.deposits[..|t.deposits|] == t.deposits
  }

  lemma {:induction false} AdvanceKeepsDeposits(s: State, e: Step)
    ensures KeepsDeposits(s.tables, Advance(s, e).tables)
  {
    hide L.SnapshotNav;
    if e.RecreditAnswers? && s.recredit.Some? && e.mid.Some? {
      var p := RecreditParams(s.tables, s.recredit.value, e.mid.value, e.now);
      L.CreditEffect(s.tables, p);
      hide L.Credit;
    } else if e.CreditRuns? && s.pipe.Priced? {
      L.CreditEffect(s.tables, PipelineCredit(s.pipe));
      hide L.Credit;
    }
  }

  lemma {:induction false} RunKeepsDeposits(s: State, es: seq<Step>)
    ensures KeepsDeposits(s.tables, Run(s, es).tables)
  {
    hide Next;
    if es != [] {
      var n := |es| - 1;
      RunKeepsDeposits(s, es[..n]);
      AdvanceKeepsDeposits(Run(s, es[..n]), es[n]);
    }
  }

  lemma {:induction false} InflowKeepsDeposits(s: State, ev: Inflow, env: InflowEnv, sig: L.Sig)
    ensures L.HasDeposit(s.tables, sig) ==> L.HasDeposit(Inflowed(s, ev, env).tables, sig)
  {
    InflowIsRun(s, ev, env);
    hide Inflowed;
    var r := Inflowed(s, ev, env);
    var es :| Run(s, es) == r;
    RunKeepsDeposits(s, es);
    if L.HasDeposit(s.tables, sig) {
      var k :| 0 <= k < |s.tables.deposits| && s.tables.deposits[k].inboundTxSig == sig;
      assert r.tables.deposits[k] == r.tables.deposits[..|s.tables.deposits|][k];
    }
  }

  // ----- the undisturbed inflow

  /** Nothing fails and nobody interferes. */
  ghost predicate Smooth(env: InflowEnv) {
    Sweeps(env) && env.mid.Returned? && env.mid.value.Some? && Quiet(env)
  }

  /** The one row an undisturbed inflow is credited with. */
  function InflowCredit(s: State, ev: Inflow, env: InflowEnv): L.CreditParams
    requires env.sweep.Landed? && env.mid.Returned? && env.mid.value.Some?
  {
    L.CreditParams(ev.user, ev.inboundTxSig, env.sweep.sweepTxSig, ev.solLamports, ev.bertRaw, env.mid.value.value,
                   L.SnapshotNav(s.tables), ev.confirmedAt, env.sweptAt, env.sweptAt)
  }

  function DepositOf(p: L.CreditParams): L.Deposit
    requires p.navPerShare != 0.0
  {
    L.Deposit(p.user, p.inboundTxSig, p.sweepTxSig, p.solLamports, p.bertRaw, p.mid, p.navPerShare,
              L.DepositUsd(p) / p.navPerShare, p.confirmedAt, p.sweptAt)
  }

  ghost function SweptState(s: State, ev: Inflow, env: InflowEnv): State
    requires env.sweep.Landed?
  {
    State(s.tables.(audit := s.tables.audit +
            [L.AuditRow(env.detectedAt, ev.user, L.DepositDetected(ev.inboundTxSig, ev.solLamports, ev.bertRaw)),
             L.AuditRow(env.sweptAt, ev.user,
                        L.DepositSwept(ev.inboundTxSig, env.sweep.sweepTxSig, ev.solLamports, ev.bertRaw,
                                       ev.confirmedAt))]),
          Swept(ev, env.sweep.sweepTxSig, env.sweptAt), s.recredit)
  }

  lemma {:induction false} SmoothSweeps(s: State, ev: Inflow, env: InflowEnv)
    requires Smooth(env) && s.pipe.Waiting?
    ensures Inflowed(s, ev, env) == AfterSweep(SweptState(s, ev, env), env)
  {
    hide L.SnapshotNav, L.Credit, AfterSweep;
    assert Steps(env.others(0)) == [] && Steps(env.others(1)) == [];
    var d := Advance(s, Detect(ev, env.detectedAt));
    var p := Advance(d, Preflight(true, env.preflightAt));
    assert Run(d, []) == d && Run(p, []) == p;
    assert Advance(p, SweepLands(env.sweep.sweepTxSig, env.sweptAt)) == SweptState(s, ev, env);
  }

  /**
    An inflow that nothing disturbs mints its USD value over the current value per share to its user, once: the
    deposit table grows by the credited row, and it does nothing but log if the signature is credited or the value is
    not positive.
   */
  lemma {:induction false} SmoothInflowMints(s: State, ev: Inflow, env: InflowEnv)
    requires Smooth(env) && s.pipe.Waiting?
    ensures var r := Inflowed(s, ev, env).tables;
            var p := InflowCredit(s, ev, env);
            if !L.HasDeposit(s.tables, ev.inboundTxSig) && L.SnapshotNav(s.tables) > 0.0
            then && r.deposits == s.tables.deposits + [DepositOf(p)]
                 && L.TotalShares(r.shares) == L.TotalShares(s.tables.shares) + L.DepositUsd(p) / p.navPerShare
                 && L.SharesOf(r.shares, ev.user) ==
                      L.SharesOf(s.tables.shares, ev.user) + L.DepositUsd(p) / p.navPerShare
                 && (forall u :: u != ev.user ==> L.SharesOf(r.shares, u) == L.SharesOf(s.tables.shares, u))
            else r == s.tables.(audit := r.audit)
  {
    SmoothSweeps(s, ev, env);
    var w := SweptState(s, ev, env);
    var p := InflowCredit(s, ev, env);
    SmoothCredits(w, env);
    assert L.SnapshotNav(w.tables) == L.SnapshotNav(s.tables);
    assert L.HasDeposit(w.tables, ev.inboundTxSig) == L.HasDeposit(s.tables, ev.inboundTxSig);
    CreditedTables(w.tables, p);
  }

  /** Nobody interferes. */
  ghost predicate Quiet(env: InflowEnv) {
    forall k: nat :: env.others(k) == []
  }

  predicate Sweeps(env: InflowEnv) {
    env.preflight.Returned? && env.preflight.value.Some? && env.sweep.Landed?
  }

  /** The audit rows an inflow leaves that does not get as far as its credit. */
  function FailureRows(ev: Inflow, env: InflowEnv): seq<L.Event> {
    if env.preflight.Threw? then []
    else if env.preflight.value.None? then [L.DepositDeferred(ev.inboundTxSig)]
    else if env.sweep.BuildFails? || env.sweep.SubmitThrows? then [L.DepositSweepFailed(ev.inboundTxSig)]
    else if !env.sweep.Landed? then []
    else [L.DepositSwept(ev.inboundTxSig, env.sweep.sweepTxSig, ev.solLamports, ev.bertRaw, ev.confirmedAt)] +
         (if env.mid.Threw? then [] else [L.DepositSweepFailed(ev.inboundTxSig)])
  }

  ghost predicate Logs(t: L.Tables, u: L.Tables, user: L.User, events: seq<L.Event>) {
    && u == t.(audit := u.audit) && |u.audit| == |t.audit| + |events| && u.audit[..|t.audit|] == t.audit
    && forall i :: 0 <= i < |events| ==>
         u.audit[|t.audit| + i].event == events[i] && u.audit[|t.audit| + i].user == user
  }

  /**
    An inflow that nobody disturbs but that fails on the way mints nothing and only logs: it is swept only after a
    healthy oracle, deferred on an unhealthy one, and a sweep whose credit cannot be valued is left for the operator.
   */
  lemma {:induction false} FailedInflowLogs(s: State, ev: Inflow, env: InflowEnv)
    requires Quiet(env) && s.pipe.Waiting? && !(Sweeps(env) && env.mid.Returned? && env.mid.value.Some?)
    ensures Logs(s.tables, Inflowed(s, ev, env).tables, ev.user,
                 [L.DepositDetected(ev.inboundTxSig, ev.solLamports, ev.bertRaw)] + FailureRows(ev, env))
  {
    hide L.SnapshotNav, L.Credit, Scan;
    assert Steps(env.others(0)) == [] && Steps(env.others(1)) == [] && Steps(env.others(2)) == [];
    var d := Advance(s, Detect(ev, env.detectedAt));
    var p := Advance(d, Preflight(true, env.preflightAt));
    assert Run(d, []) == d && Run(p, []) == p;
    if env.sweep.Landed? {
      var w := Advance(p, SweepLands(env.sweep.sweepTxSig, env.sweptAt));
      assert Run(w, []) == w;
    }
  }

  lemma {:induction false} SmoothCredits(w: State, env: InflowEnv)
    requires Smooth(env) && w.pipe.Swept?
    ensures var p := Priced(w.pipe.ev, w.pipe.sweepTxSig, w.pipe.sweptAt, env.mid.value.value, L.SnapshotNav(w.tables));
            AfterSweep(w, env) == Advance(w.(pipe := p), CreditRuns(env.failedAt))
  {
    hide L.SnapshotNav, L.Credit;
    var v := Advance(w, OracleAnswers(env.mid.value, env.failedAt));
    var p := Advance(v, ReadNav);
    assert Steps(env.others(2)) == [] && Steps(env.others(3)) == [];
    assert Run(w, []) == w && Run(p, []) == p;
  }

  lemma {:induction false} CreditedTables(t: L.Tables, p: L.CreditParams)
    ensures L.Credit(t, p).Some? <==> p.navPerShare > 0.0 && !L.HasDeposit(t, p.inboundTxSig)
    ensures L.Credit(t, p).Some? ==>
              var u := L.Credit(t, p).value;
              && u.deposits == t.deposits + [DepositOf(p)]
              && L.TotalShares(u.shares) == L.TotalShares(t.shares) + L.DepositUsd(p) / p.navPerShare
              && L.SharesOf(u.shares, p.user) == L.SharesOf(t.shares, p.user) + L.DepositUsd(p) / p.navPerShare
              && (forall v :: v != p.user ==> L.SharesOf(u.shares, v) == L.SharesOf(t.shares, v))
  {
    L.CreditEffect(t, p);
    hide L.DepositUsd, L.Upsert, L.AddShares, L.TotalShares, L.SharesOf;
  }

  // ----- the watcher

  /** One entry of getSignaturesForAddress, with what getParsedTransaction answers for it. */
  datatype Listed = Listed(signature: L.Sig, failed: bool, confirmedAt: int, transaction: Answer<Option<(nat, nat)>>)

  ghost predicate DistinctSigs(ls: seq<Listed>) {
    forall i, j :: 0 <= i < j < |ls| ==> ls[i].signature != ls[j].signature
  }

  ghost predicate IsFirst(ls: seq<Listed>, i: int) {
    0 <= i < |ls| && forall j :: 0 <= j < i ==> ls[j].signature != ls[i].signature
  }

  /** The first entry of every signature, in order. */
  function FirstsOf(ls: seq<Listed>): seq<Listed> {
    if ls == [] then []
    else
      var n := |ls| - 1;
      var front := FirstsOf(ls[..n]);
      if exists j :: 0 <= j < n && ls[j].signature == ls[n].signature then front else front + [ls[n]]
  }

  lemma {:induction false} FirstsSound(ls: seq<Listed>)
    ensures forall x :: x in FirstsOf(ls) ==> exists i :: IsFirst(ls, i) && ls[i] == x
  {
    if ls != [] {
      var n := |ls| - 1;
      FirstsSound(ls[..n]);
      forall x | x in FirstsOf(ls) ensures exists i :: IsFirst(ls, i) && ls[i] == x {
        if x in FirstsOf(ls[..n]) {
          var i :| IsFirst(ls[..n], i) && ls[..n][i] == x;
          assert IsFirst(ls, i);
        } else {
          assert IsFirst(ls, n);
        }
      }
    }
  }

  lemma {:induction false} FirstsComplete(ls: seq<Listed>)
    ensures forall i :: IsFirst(ls, i) ==> ls[i] in FirstsOf(ls)
  {
    if ls != [] {
      var n := |ls| - 1;
      FirstsComplete(ls[..n]);
      forall i | IsFirst(ls, i) ensures ls[i] in FirstsOf(ls) {
        if i < n {
          assert IsFirst(ls[..n], i);
          assert ls[..n][i] in FirstsOf(ls[..n]);
        }
      }
    }
  }

  lemma {:induction false} FirstsOnce(ls: seq<Listed>)
    ensures DistinctSigs(FirstsOf(ls))
  {
    if ls != [] {
      var n := |ls| - 1;
      var front := FirstsOf(ls[..n]);
      FirstsOnce(ls[..n]);
      FirstsSound(ls[..n]);
      forall k | 0 <= k < |front| ensures exists i :: 0 <= i < n && ls[i].signature == front[k].signature {
        assert front[k] in front;
        var i :| IsFirst(ls[..n], i) && ls[..n][i] == front[k];
        assert ls[i] == front[k];
      }
    }
  }

  /** Same signatures, each once. */
  lemma {:induction false} FirstsAreDistinct(ls: seq<Listed>)
    ensures DistinctSigs(FirstsOf(ls))
    ensures forall x :: x in FirstsOf(ls) ==> exists i :: IsFirst(ls, i) && ls[i] == x
    ensures forall i :: IsFirst(ls, i) ==> ls[i] in FirstsOf(ls)
  {
    FirstsOnce(ls);
    FirstsSound(ls);
    FirstsComplete(ls);
  }

  method MergeSignatures(main: seq<Listed>, ata: seq<Listed>) returns (sigs: seq<Listed>)
    ensures sigs == FirstsOf(main + ata)
  {
    var all := main + ata;
    var seen: set<L.Sig> := {};
    sigs := [];
    for i := 0 to |all|
      invariant sigs == FirstsOf(all[..i])
      invariant forall x :: x in seen <==> exists j :: 0 <= j < i && all[j].signature == x
    {
      var front := all[..i + 1];
      assert front[..i] == all[..i];
      assert forall j :: 0 <= j < i ==> front[j] == all[j];
      if all[i].signature !in seen {
        seen := seen + {all[i].signature};
        sigs := sigs + [all[i]];
        assert forall j :: 0 <= j < i ==> front[j].signature != front[i].signature;
      } else {
        assert exists j :: 0 <= j < i && front[j].signature == front[i].signature;
      }
    }
    assert all[..|all|] == all;
  }

  /** A listed entry that must be reported while it is not credited. */
  predicate Creditable(l: Listed) {
    !l.failed && l.transaction.Returned? && l.transaction.value.Some? && l.transaction.value.value != (0, 0)
  }

  /** An awaited call outside every try block threw. */
  predicate Escapes(env: InflowEnv) {
    || env.preflight.Threw?
    || (env.preflight.value.Some? &&
        (env.sweep.BlockhashThrows? || (env.sweep.Landed? && env.mid.Threw?)))
  }

  class Pipeline {
    const store: Store
    var recredit: Option<Recovered>
    /** Where the code in hand stands. */
    ghost var pipe: Pipe

    ghost function Now(): State
      reads this, store
    {
      State(store.Contents(), pipe, recredit)
    }

    constructor (store: Store)
      ensures this.store == store && Now() == State(store.Contents(), Waiting, None)
    {
      this.store := store;
      recredit := None;
      pipe := Waiting;
    }

    // ----- the recredit command

    /** Newest first, until both rows are found. */
    method ScanAudit(sig: L.Sig, limit: nat) returns (r: Option<Recovered>)
      ensures r == Scan(store.audit, limit, sig)
    {
      var audit := store.audit;
      var lo := WindowStart(audit, limit);
      var d, s := -1, -1;
      var i := |audit|;
      while i > lo && (d < 0 || s < 0)
        invariant lo <= i <= |audit| && -1 <= d < |audit| && -1 <= s < |audit|
        invariant d >= 0 ==> lo <= d && IsDetected(audit[d], sig)
        invariant s >= 0 ==> lo <= s && IsSwept(audit[s], sig)
        invariant NewestDetected(audit, lo, |audit|, sig) == if d >= 0 then d else NewestDetected(audit, lo, i, sig)
        invariant NewestSwept(audit, lo, |audit|, sig) == if s >= 0 then s else NewestSwept(audit, lo, i, sig)
      {
        i := i - 1;
        if IsDetected(audit[i], sig) && d < 0 {
          d := i;
        }
        if IsSwept(audit[i], sig) && s < 0 {
          s := i;
        }
      }
      if d < 0 || s < 0 {
        return None;
      }
      var det, swe := audit[d], audit[s].event;
      r := Some(Recovered(det.user, sig, swe.sweepTxSig, det.event.solLamports, det.event.bertRaw, swe.confirmedAt));
    }

    method BeginRecredit(sig: L.Sig, limit: nat)
      modifies this, store
      ensures Now() == Advance(old(Now()), RecreditScans(sig, limit))
    {
      var credited := store.HasDeposit(sig);
      if recredit.None? && !credited {
        recredit := ScanAudit(sig, limit);
      }
    }

    method FinishRecredit(mid: Option<Mid>, now: int, operator: L.User)
      modifies this, store
      ensures Now() == Advance(old(Now()), RecreditAnswers(mid, now, operator))
    {
      hide L.SnapshotNav, L.Credit;
      if recredit.Some? {
        var r := recredit.value;
        recredit := None;
        if mid.Some? {
          var nav := store.GetNavPerShare();
          var ok := store.Credit(L.CreditParams(r.user, r.inboundTxSig, r.sweepTxSig, r.solLamports, r.bertRaw,
                                                mid.value, nav,
                                                r.confirmedAt, now, now));
          if ok {
            store.WriteAudit(L.AuditRow(now, operator, L.DepositRecredited(r.inboundTxSig, r.user)));
          }
        }
      }
    }

    /** What the operator does at an await. */
    method Await(cs: seq<Command>)
      modifies this, store
      ensures Now() == Run(old(Now()), Steps(cs))
    {
      hide Next;
      ghost var start := Now();
      for i := 0 to |cs|
        invariant Now() == Run(start, Steps(cs)[..i])
      {
        assert Steps(cs)[..i + 1][..i] == Steps(cs)[..i];
        match cs[i] {
          case Begin(sig, limit) => BeginRecredit(sig, limit);
          case Finish(mid, now, operator) => FinishRecredit(mid, now, operator);
        }
      }
      assert Steps(cs)[..|cs|] == Steps(cs);
    }

    // ----- onInflow

    method RecordFailure(ev: Inflow, at: int)
      modifies this, store
      ensures Now() == Failure(old(Now()), ev, at)
    {
      store.WriteAudit(L.AuditRow(at, ev.user, L.DepositSweepFailed(ev.inboundTxSig)));
      pipe := Waiting;
    }

    /** From the second oracle read on. */
    method CreditSwept(ev: Inflow, sweepTxSig: L.Sig, env: InflowEnv) returns (escaped: bool)
      requires pipe == Swept(ev, sweepTxSig, env.sweptAt)
      modifies this, store
      ensures Now() == AfterSweep(old(Now()), env)
      ensures escaped == env.mid.Threw?
    {
      hide L.SnapshotNav, L.Credit, Run;
      ghost var start := Now();
      Await(env.others(2));
      OthersKeepPipe(start, env.others(2));
      if env.mid.Threw? {
        pipe := Waiting;
        return true;
      }
      escaped := false;
      if env.mid.value.None? {
        RecordFailure(ev, env.failedAt);
        return;
      }
      var mid := env.mid.value.value;
      var nav := store.GetNavPerShare();
      pipe := Priced(ev, sweepTxSig, env.sweptAt, mid, nav);
      ghost var priced := Now();
      Await(env.others(3));
      OthersKeepPipe(priced, env.others(3));
      var ok := store.Credit(L.CreditParams(ev.user, ev.inboundTxSig, sweepTxSig, ev.solLamports, ev.bertRaw, mid, nav,
                                            ev.confirmedAt, env.sweptAt, env.sweptAt));
      if ok {
        pipe := Waiting;
      } else {
        RecordFailure(ev, env.failedAt);
      }
    }

    method Sweep(ev: Inflow, env: InflowEnv) returns (escaped: bool)
      requires pipe == Sweeping(ev)
      modifies this, store
      ensures Now() == AfterPreflight(old(Now()), env)
      ensures escaped == (env.sweep.BlockhashThrows? || (env.sweep.Landed? && env.mid.Threw?))
    {
      hide AfterSweep, Run;
      escaped := false;
      ghost var start := Now();
      if env.sweep.SecretsMissing? || env.sweep.NothingToSweep? {
        pipe := Waiting;
        return;
      }
      if env.sweep.BuildFails? {
        RecordFailure(ev, env.failedAt);
        return;
      }
      Await(env.others(1));
      OthersKeepPipe(start, env.others(1));
      if env.sweep.BlockhashThrows? {
        pipe := Waiting;
        escaped := true;
      } else if env.sweep.SubmitThrows? {
        RecordFailure(ev, env.failedAt);
      } else {
        var sig := env.sweep.sweepTxSig;
        store.WriteAudit(L.AuditRow(env.sweptAt, ev.user,
          L.DepositSwept(ev.inboundTxSig, sig, ev.solLamports, ev.bertRaw, ev.confirmedAt)));
        pipe := Swept(ev, sig, env.sweptAt);
        escaped := CreditSwept(ev, sig, env);
      }
    }

    /** Detect, check the oracle, sweep, credit. `escaped` is an exception that reaches the watcher. */
    method OnInflow(ev: Inflow, env: InflowEnv) returns (escaped: bool)
      requires pipe.Waiting?
      modifies this, store
      ensures Now() == Inflowed(old(Now()), ev, env) && pipe.Waiting?
      ensures escaped == Escapes(env)
    {
      hide AfterPreflight, Run;
      escaped := false;
      ghost var before := Now();
      store.WriteAudit(L.AuditRow(env.detectedAt, ev.user,
                                  L.DepositDetected(ev.inboundTxSig, ev.solLamports, ev.bertRaw)));
      pipe := Detected(ev);
      ghost var start := Now();
      Await(env.others(0));
      OthersKeepPipe(start, env.others(0));
      if env.preflight.Threw? {
        pipe := Waiting;
        escaped := true;
      } else if env.preflight.value.None? {
        store.WriteAudit(L.AuditRow(env.preflightAt, ev.user, L.DepositDeferred(ev.inboundTxSig)));
        pipe := Waiting;
      } else {
        pipe := Sweeping(ev);
        escaped := Sweep(ev, env);
      }
      InflowEnds(before, ev, env);
    }

    // ----- pollAddress

    /** One listed signature: skipped, or reported to the pipeline. */
    method PollOne(user: L.User, l: Listed, env: InflowEnv) returns (reported: Option<Inflow>, escaped: bool)
      requires pipe.Waiting?
      modifies this, store
      ensures pipe.Waiting? && Reaches(old(Now()), Now()) && KeepsCredits(old(Now()), Now())
      ensures reported.Some? ==> Reports(reported.value, user, l) && !L.HasDeposit(old(store.Contents()), l.signature)
      ensures !escaped && Creditable(l) && reported.None? ==> L.HasDeposit(store.Contents(), l.signature)
    {
      hide Inflowed, Run, Next;
      ghost var before := Now();
      ReachesSelf(before);
      reported, escaped := None, false;
      var credited := store.HasDeposit(l.signature);
      if l.failed || credited {
        return;
      }
      if l.transaction.Threw? {
        escaped := true;
        return;
      }
      if l.transaction.value.None? || l.transaction.value.value == (0, 0) {
        return;
      }
      var ev := Inflow(user, l.signature, l.transaction.value.value.0, l.transaction.value.value.1, l.confirmedAt);
      reported := Some(ev);
      escaped := OnInflow(ev, env);
      InflowReached(before, before, ev, env);
      forall sig ensures L.HasDeposit(before.tables, sig) ==> L.HasDeposit(store.Contents(), sig) {
        InflowKeepsDeposits(before, ev, env, sig);
      }
    }

    /**
      Reports each signature at most once, only if it succeeded and moved something in and is not credited;
      without an escaping exception every creditable signature is reported or credited.
     */
    method PollAddress(user: L.User, main: seq<Listed>, ata: seq<Listed>, envs: L.Sig -> InflowEnv)
      returns (reported: seq<Inflow>, escaped: bool)
      requires pipe.Waiting?
      modifies this, store
      ensures pipe.Waiting? && Reaches(old(Now()), Now())
      ensures forall i, j :: 0 <= i < j < |reported| ==> reported[i].inboundTxSig != reported[j].inboundTxSig
      ensures forall r :: r in reported ==>
                FromList(r, user, FirstsOf(main + ata)) && !L.HasDeposit(old(store.Contents()), r.inboundTxSig)
      ensures !escaped ==> forall l :: l in FirstsOf(main + ata) && Creditable(l) ==>
          Handled(l, reported, store.Contents())
    {
      hide Run, Next, Reports, Creditable;
      var sigs := MergeSignatures(main, ata);
      FirstsAreDistinct(main + ata);
      hide FirstsOf;
      reported, escaped := [], false;
      ghost var start := Now();
      ReachesSelf(start);
      for k := 0 to |sigs|
        invariant pipe.Waiting? && Reaches(start, Now()) && !escaped
        invariant forall i, j :: 0 <= i < j < |reported| ==> reported[i].inboundTxSig != reported[j].inboundTxSig
        invariant forall r :: r in reported ==>
                    FromList(r, user, sigs[..k]) && !L.HasDeposit(start.tables, r.inboundTxSig)
        invariant forall l :: l in sigs[..k] && Creditable(l) ==> Handled(l, reported, store.Contents())
      {
        ghost var before, front := Now(), reported;
        var ev;
        ev, escaped := PollOne(user, sigs[k], envs(sigs[k].signature));
        ReachesOn(start, before, Now());
        if ev.Some? {
          StillUncredited(start, before, sigs[k].signature);
          NewlyReported(front, ev.value, user, sigs, k);
          reported := reported + [ev.value];
        }
        ListGrows(front, user, sigs, k);
        HandledStays(front, reported, before, Now(), sigs[..k]);
        assert ev.Some? ==> ev.value in reported;
        assert !escaped && Creditable(sigs[k]) ==> Handled(sigs[k], reported, store.Contents());
        assert sigs[..k + 1] == sigs[..k] + [sigs[k]];
        if escaped {
          return;
        }
      }
    }
  }

  /** The report of a successful transaction that moved something in. */
  predicate Reports(r: Inflow, user: L.User, l: Listed) {
    && r.user == user && r.inboundTxSig == l.signature && r.confirmedAt == l.confirmedAt && !l.failed
    && l.transaction.Returned? && l.transaction.value == Some((r.solLamports, r.bertRaw))
       && (r.solLamports, r.bertRaw) != (0, 0)
  }

  ghost predicate FromList(r: Inflow, user: L.User, ls: seq<Listed>) {
    exists i :: 0 <= i < |ls| && Reports(r, user, ls[i])
  }

  ghost predicate Handled(l: Listed, reported: seq<Inflow>, t: L.Tables) {
    L.HasDeposit(t, l.signature) || exists r :: r in reported && r.inboundTxSig == l.signature
  }

  ghost predicate KeepsCredits(s: State, t: State) {
    forall sig :: L.HasDeposit(s.tables, sig) ==> L.HasDeposit(t.tables, sig)
  }

  lemma {:induction false} ReachesOn(s: State, t: State, u: State)
    requires Reaches(s, t) && Reaches(t, u)
    ensures Reaches(s, u)
  {
    hide Next;
    var es :| Run(t, es) == u;
    ReachesRun(s, t, es);
  }

  lemma {:induction false} NewlyReported(front: seq<Inflow>, ev: Inflow, user: L.User, sigs: seq<Listed>, k: nat)
    requires k < |sigs| && DistinctSigs(sigs) && Reports(ev, user, sigs[k])
    requires forall r :: r in front ==> FromList(r, user, sigs[..k])
    ensures forall i :: 0 <= i < |front| ==> front[i].inboundTxSig != ev.inboundTxSig
    ensures FromList(ev, user, sigs[..k + 1]) && FromList(ev, user, sigs) && ev.inboundTxSig == sigs[k].signature
  {
    assert sigs[..k + 1][k] == sigs[k];
    forall i | 0 <= i < |front| ensures front[i].inboundTxSig != ev.inboundTxSig {
      assert FromList(front[i], user, sigs[..k]);
      var j :| 0 <= j < k && Reports(front[i], user, sigs[..k][j]);
      assert sigs[..k][j] == sigs[j];
    }
  }

  lemma {:induction false} ListGrows(front: seq<Inflow>, user: L.User, sigs: seq<Listed>, k: nat)
    requires k < |sigs| && forall r :: r in front ==> FromList(r, user, sigs[..k])
    ensures forall r :: r in front ==> FromList(r, user, sigs[..k + 1]) && FromList(r, user, sigs)
  {
  }

  lemma {:induction false} HandledStays(front: seq<Inflow>, reported: seq<Inflow>, s: State, t: State, ls: seq<Listed>)
    requires |front| <= |reported| && reported[..|front|] == front && KeepsCredits(s, t)
    ensures forall l :: l in ls && Handled(l, front, s.tables) ==> Handled(l, reported, t.tables)
  {
  }

  lemma {:induction false} StillUncredited(s: State, t: State, sig: L.Sig)
    requires Reaches(s, t) && !L.HasDeposit(t.tables, sig)
    ensures !L.HasDeposit(s.tables, sig)
  {
    hide Next;
    var es :| Run(s, es) == t;
    RunKeepsDeposits(s, es);
    forall k | 0 <= k < |s.tables.deposits| ensures s.tables.deposits[k].inboundTxSig != sig {
      assert t.tables.deposits[k] == t.tables.deposits[..|s.tables.deposits|][k];
    }
  }

  lemma {:induction false} InflowReached(s: State, t: State, ev: Inflow, env: InflowEnv)
    requires Reaches(s, t)
    ensures Reaches(s, Inflowed(t, ev, env))
  {
    InflowIsRun(t, ev, env);
    hide Inflowed, Next;
    var es :| Run(t, es) == Inflowed(t, ev, env);
    ReachesRun(s, t, es);
  }

  lemma {:induction false} OthersKeepPipe(s: State, cs: seq<Command>)
    ensures Run(s, Steps(cs)).pipe == s.pipe
  {
    hide L.SnapshotNav, L.Credit, Scan;
    if cs != [] {
      var n := |cs| - 1;
      OthersKeepPipe(s, cs[..n]);
      assert Steps(cs)[..n] == Steps(cs[..n]);
    }
  }

  lemma {:induction false} InflowEnds(s: State, ev: Inflow, env: InflowEnv)
    requires s.pipe.Waiting?
    ensures Inflowed(s, ev, env).pipe.Waiting?
  {
    hide Run, Scan, L.SnapshotNav, L.Credit;
    var d := Advance(s, Detect(ev, env.detectedAt));
    OthersKeepPipe(d, env.others(0));
    var w := Run(d, Steps(env.others(0)));
    var p := Advance(w, Preflight(true, env.preflightAt));
    OthersKeepPipe(p, env.others(1));
    if env.preflight.Returned? && env.preflight.value.Some? && env.sweep.Landed? {
      SweptEnds(Advance(Run(p, Steps(env.others(1))), SweepLands(env.sweep.sweepTxSig, env.sweptAt)), env);
      hide AfterSweep;
    }
  }

  lemma {:induction false} SweptEnds(s: State, env: InflowEnv)
    requires s.pipe.Swept?
    ensures AfterSweep(s, env).pipe.Waiting?
  {
    hide Run, Scan, L.SnapshotNav, L.Credit;
    OthersKeepPipe(s, env.others(2));
    var w := Run(s, Steps(env.others(2)));
    if env.mid.Returned? {
      var v := Advance(w, OracleAnswers(env.mid.value, env.failedAt));
      OthersKeepPipe(Advance(v, ReadNav), env.others(3));
    }
  }
}
