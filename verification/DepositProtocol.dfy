/**
  From an inbound transfer to minted shares (src/vault/depositPipeline.ts:60-206,
  src/vault/operatorCommands.ts:181-336), broken at every await: the pipeline handles one inflow at a time, the
  operator's recredit command runs beside it, and any awaited call or database write may fail.
 */
module DepositProtocol {
  import opened Prelude
  import opened ShareMath
  import opened Ledger

  /** An inflow the watcher reported for a known deposit address. */
  datatype Inflow = Inflow(user: User, inboundTxSig: Sig, solLamports: nat, bertRaw: nat, confirmedAt: int)

  datatype Pipe =
    | Waiting
    | Detected(ev: Inflow)
    | Sweeping(ev: Inflow)
    | Swept(ev: Inflow, sweepTxSig: Sig, sweptAt: int)
    | Valued(ev: Inflow, sweepTxSig: Sig, sweptAt: int, mid: Mid)
    | Priced(ev: Inflow, sweepTxSig: Sig, sweptAt: int, mid: Mid, navPerShare: real)

  /** What the recredit command recovered from the audit log. */
  datatype Recovered = Recovered(user: User, inboundTxSig: Sig, sweepTxSig: Sig, solLamports: nat, bertRaw: nat,
                                 confirmedAt: int)

  datatype State = State(tables: Tables, pipe: Pipe, recredit: Option<Recovered>)

  datatype Step =
    | Detect(ev: Inflow, at: int)
    | Preflight(healthy: bool, at: int)
    | SweepFails(at: int)
    | SweepLands(sweepTxSig: Sig, at: int)
    | OracleAnswers(mid: Option<Mid>, at: int)
    | ReadNav
    | CreditRuns(at: int)
    | PipeThrows
    | RecreditScans(inboundTxSig: Sig, limit: nat)
    | RecreditAnswers(mid: Option<Mid>, now: int, operator: User)
    | Elsewhere(tables: Tables)

  // ----- the audit scan

  predicate IsDetected(row: AuditRow, sig: Sig) {
    row.event.DepositDetected? && row.event.inboundTxSig == sig
  }

  predicate IsSwept(row: AuditRow, sig: Sig) {
    row.event.DepositSwept? && row.event.inboundTxSig == sig
  }

  /** Position of the newest deposit_detected row for the signature in audit[lo..n), or -1. */
  function NewestDetected(audit: seq<AuditRow>, lo: nat, n: nat, sig: Sig): (i: int)
    requires n <= |audit|
    ensures i == -1 || (lo <= i < n && IsDetected(audit[i], sig))
    ensures forall j :: Max(i + 1, lo) <= j < n ==> !IsDetected(audit[j], sig)
  {
    if n <= lo then -1 else if IsDetected(audit[n - 1], sig) then n - 1 else NewestDetected(audit, lo, n - 1, sig)
  }

  function NewestSwept(audit: seq<AuditRow>, lo: nat, n: nat, sig: Sig): (i: int)
    requires n <= |audit|
    ensures i == -1 || (lo <= i < n && IsSwept(audit[i], sig))
    ensures forall j :: Max(i + 1, lo) <= j < n ==> !IsSwept(audit[j], sig)
  {
    if n <= lo then -1 else if IsSwept(audit[n - 1], sig) then n - 1 else NewestSwept(audit, lo, n - 1, sig)
  }

  /** The oldest row listRecentAuditEvents(limit) returns. */
  function WindowStart(audit: seq<AuditRow>, limit: nat): nat {
    if |audit| > limit then |audit| - limit else 0
  }

  /** User and amounts of the newest detection, signature and time of the newest sweep; None if either is missing. */
  function Scan(audit: seq<AuditRow>, limit: nat, sig: Sig): Option<Recovered> {
    var lo := WindowStart(audit, limit);
    var d := NewestDetected(audit, lo, |audit|, sig);
    var s := NewestSwept(audit, lo, |audit|, sig);
    if d < 0 || s < 0 then None
    else
      var det, swe := audit[d], audit[s].event;
      Some(Recovered(det.user, sig, swe.sweepTxSig, det.event.solLamports, det.event.bertRaw, swe.confirmedAt))
  }

  /** Row i is the last detection of the signature, and among the last `limit` rows. */
  ghost predicate LastDetected(audit: seq<AuditRow>, limit: nat, sig: Sig, i: nat) {
    && i < |audit| <= i + limit && IsDetected(audit[i], sig)
    && forall j :: i < j < |audit| ==> !IsDetected(audit[j], sig)
  }

  ghost predicate LastSwept(audit: seq<AuditRow>, limit: nat, sig: Sig, i: nat) {
    && i < |audit| <= i + limit && IsSwept(audit[i], sig)
    && forall j :: i < j < |audit| ==> !IsSwept(audit[j], sig)
  }

  /**
    The scan finds something exactly when a detection and a sweep of the signature are both among the last `limit` rows;
    user and amounts are those of the newest detection, sweep signature and confirmation those of the newest sweep.
   */
  lemma {:induction false} ScanExact(audit: seq<AuditRow>, limit: nat, sig: Sig)
    ensures Scan(audit, limit, sig).Some? <==>
              && (exists i :: 0 <= i < |audit| <= i + limit && IsDetected(audit[i], sig))
              && (exists i :: 0 <= i < |audit| <= i + limit && IsSwept(audit[i], sig))
    ensures Scan(audit, limit, sig).Some? ==>
              var r := Scan(audit, limit, sig).value;
              && r.inboundTxSig == sig
              && (exists i: nat ::
                    && LastDetected(audit, limit, sig, i)
                    && audit[i] == AuditRow(audit[i].ts, r.user, DepositDetected(sig, r.solLamports, r.bertRaw)))
              && (exists i: nat ::
                    && LastSwept(audit, limit, sig, i)
                    && audit[i].event.sweepTxSig == r.sweepTxSig && audit[i].event.confirmedAt == r.confirmedAt)
  {
    var lo := WindowStart(audit, limit);
    var d := NewestDetected(audit, lo, |audit|, sig);
    var s := NewestSwept(audit, lo, |audit|, sig);
    if d >= 0 && s >= 0 {
      assert LastDetected(audit, limit, sig, d);
      assert LastSwept(audit, limit, sig, s);
    }
  }

  // ----- steps

  function PipelineCredit(p: Pipe): CreditParams
    requires p.Priced?
  {
    var ev := p.ev;
    CreditParams(ev.user, ev.inboundTxSig, p.sweepTxSig, ev.solLamports, ev.bertRaw, p.mid, p.navPerShare,
                 ev.confirmedAt, p.sweptAt, p.sweptAt)
  }

  function RecreditParams(t: Tables, r: Recovered, mid: Mid, now: int): CreditParams {
    CreditParams(r.user, r.inboundTxSig, r.sweepTxSig, r.solLamports, r.bertRaw, mid, SnapshotNav(t), r.confirmedAt,
                 now, now)
  }

  function Failure(s: State, ev: Inflow, at: int): State {
    s.(tables := WriteAudit(s.tables, AuditRow(at, ev.user, DepositSweepFailed(ev.inboundTxSig))), pipe := Waiting)
  }

  /** What the rest of the bot may do to the tables: anything but deposits and their audit trail. */
  ghost predicate Unrelated(e: Event) {
    !e.DepositDetected? && !e.DepositSwept? && !e.DepositCredited?
  }

  ghost predicate LeavesDeposits(t: Tables, u: Tables) {
    && u.deposits == t.deposits
    && |t.audit| <= |u.audit| && u.audit[..|t.audit|] == t.audit
    && forall i :: |t.audit| <= i < |u.audit| ==> Unrelated(u.audit[i].event)
  }

  /**
    The pipeline runs inside the tick, before the drain: while it is busy nothing else burns shares or writes
    snapshots.
   */
  ghost predicate LeavesValue(t: Tables, u: Tables) {
    u.shares == t.shares && u.snapshots == t.snapshots
  }

  ghost function Next(s: State, e: Step): Option<State> {
    match (s.pipe, e)
    case (Waiting, Detect(ev, at)) =>
      Some(s.(tables := WriteAudit(s.tables,
                                   AuditRow(at, ev.user, DepositDetected(ev.inboundTxSig, ev.solLamports, ev.bertRaw))),
              pipe := Detected(ev)))
    case (Detected(ev), Preflight(healthy, at)) =>
      if healthy then Some(s.(pipe := Sweeping(ev)))
      else Some(s.(tables := WriteAudit(s.tables, AuditRow(at, ev.user, DepositDeferred(ev.inboundTxSig))),
                   pipe := Waiting))
    case (Sweeping(ev), SweepFails(at)) => Some(Failure(s, ev, at))
    case (Sweeping(ev), SweepLands(sweepTxSig, at)) =>
      Some(s.(tables := WriteAudit(s.tables, AuditRow(at, ev.user,
                DepositSwept(ev.inboundTxSig, sweepTxSig, ev.solLamports, ev.bertRaw, ev.confirmedAt))),
              pipe := Swept(ev, sweepTxSig, at)))
    case (Swept(ev, sweepTxSig, sweptAt), OracleAnswers(mid, at)) =>
      if mid.None? then Some(Failure(s, ev, at)) else Some(s.(pipe := Valued(ev, sweepTxSig, sweptAt, mid.value)))
    case (Valued(ev, sweepTxSig, sweptAt, mid), ReadNav) =>
      Some(s.(pipe := Priced(ev, sweepTxSig, sweptAt, mid, SnapshotNav(s.tables))))
    case (Priced(ev, _, _, _, _), CreditRuns(at)) =>
      var t := Credit(s.tables, PipelineCredit(s.pipe));
      if t.None? then Some(Failure(s, ev, at)) else Some(s.(tables := t.value, pipe := Waiting))
    case (_, PipeThrows) => Some(s.(pipe := Waiting))
    case (_, RecreditScans(sig, limit)) =>
      if s.recredit.Some? || HasDeposit(s.tables, sig) then None
      else
        var r := Scan(s.tables.audit, limit, sig);
        if r.None? then None else Some(s.(recredit := r))
    case (_, RecreditAnswers(mid, now, operator)) =>
      if s.recredit.None? then None
      else if mid.None? then Some(s.(recredit := None))
      else
        var r := s.recredit.value;
        var t := Credit(s.tables, RecreditParams(s.tables, r, mid.value, now));
        if t.None? then Some(s.(recredit := None))
        else Some(Recredited(s, t.value, r, now, operator))
    case (_, Elsewhere(t)) =>
      if LeavesDeposits(s.tables, t) && (s.pipe.Waiting? || LeavesValue(s.tables, t))
      then Some(s.(tables := t)) else None
    case _ => None
  }

  ghost function Run(s: State, es: seq<Step>): State {
    if es == [] then s
    else
      var before := Run(s, es[..|es| - 1]);
      var n := Next(before, es[|es| - 1]);
      if n.Some? then n.value else before
  }

  // ----- invariants

  ghost predicate HasDetection(audit: seq<AuditRow>, user: User, sig: Sig, sol: nat, bert: nat) {
    exists i :: 0 <= i < |audit| && audit[i] == AuditRow(audit[i].ts, user, DepositDetected(sig, sol, bert))
  }

  ghost predicate HasSweep(audit: seq<AuditRow>, sig: Sig, sweepTxSig: Sig) {
    exists i :: 0 <= i < |audit| && IsSwept(audit[i], sig) && audit[i].event.sweepTxSig == sweepTxSig
  }

  /** The shares minted, at the value per share used, are worth the deposited tokens at the prices used. */
  ghost predicate Fair(d: Deposit) {
    0.0 < d.navPerShareAt && d.sharesMinted * d.navPerShareAt == Worth(Tokens(d.solLamports, d.bertRaw), d.mid)
  }

  /**
    Audit row i records the credit of deposit k, its worth and its price, and the rows in front of it hold its detection
    and its sweep.
   */
  ghost predicate Records(t: Tables, i: nat, k: nat)
    requires i < |t.audit| && k < |t.deposits|
  {
    var d, row := t.deposits[k], t.audit[i];
    && row.event.DepositCredited? && row.event.inboundTxSig == d.inboundTxSig && row.user == d.user
    && row.event.sharesMinted == d.sharesMinted && row.event.navPerShare == d.navPerShareAt
    && row.event.depositUsd == Worth(Tokens(d.solLamports, d.bertRaw), d.mid) && Fair(d)
    && HasDetection(t.audit[..i], d.user, d.inboundTxSig, d.solLamports, d.bertRaw)
    && HasSweep(t.audit[..i], d.inboundTxSig, d.sweepTxSig)
  }

  ghost predicate DepositOk(t: Tables, k: nat)
    requires k < |t.deposits|
  {
    exists i: nat :: i < |t.audit| && Records(t, i, k)
  }

  /** One deposit row per signature, each with its record. */
  ghost predicate DepositsOk(t: Tables) {
    && (forall j, k :: 0 <= j < k < |t.deposits| ==> t.deposits[j].inboundTxSig != t.deposits[k].inboundTxSig)
    && (forall k :: 0 <= k < |t.deposits| ==> DepositOk(t, k))
  }

  /** One deposit_credited row per signature, and none without a deposit. */
  ghost predicate CreditedOk(t: Tables) {
    && (forall i, j ::
          0 <= i < j < |t.audit| && t.audit[i].event.DepositCredited? && t.audit[j].event.DepositCredited? ==>
          t.audit[i].event.inboundTxSig != t.audit[j].event.inboundTxSig)
    && (forall i :: 0 <= i < |t.audit| && t.audit[i].event.DepositCredited? ==>
        HasDeposit(t, t.audit[i].event.inboundTxSig))
  }

  /** The last detection in front of a sweep is that of the inflow it swept. */
  ghost predicate SweepOk(audit: seq<AuditRow>, i: nat)
    requires i < |audit| && audit[i].event.DepositSwept?
  {
    var e := audit[i].event;
    var d := NewestDetected(audit, 0, i, e.inboundTxSig);
    d >= 0 && audit[d].user == audit[i].user && audit[d].event.solLamports == e.solLamports
      && audit[d].event.bertRaw == e.bertRaw
  }

  ghost predicate SweepsOk(t: Tables) {
    forall i :: 0 <= i < |t.audit| && t.audit[i].event.DepositSwept? ==> SweepOk(t.audit, i)
  }

  /** The inflow in hand is the newest one detected for its signature. */
  ghost predicate InHand(t: Tables, ev: Inflow) {
    var d := NewestDetected(t.audit, 0, |t.audit|, ev.inboundTxSig);
    d >= 0 && t.audit[d].user == ev.user && t.audit[d].event.solLamports == ev.solLamports
      && t.audit[d].event.bertRaw == ev.bertRaw
  }

  ghost predicate PipeOk(t: Tables, p: Pipe) {
    match p
    case Waiting => true
    case Detected(ev) => InHand(t, ev)
    case Sweeping(ev) => InHand(t, ev)
    case Swept(ev, sweepTxSig, _) => InHand(t, ev) && HasSweep(t.audit, ev.inboundTxSig, sweepTxSig)
    case Valued(ev, sweepTxSig, _, _) => InHand(t, ev) && HasSweep(t.audit, ev.inboundTxSig, sweepTxSig)
    case Priced(ev, sweepTxSig, _, _, _) => InHand(t, ev) && HasSweep(t.audit, ev.inboundTxSig, sweepTxSig)
  }

  ghost predicate RecoveredOk(t: Tables, r: Recovered) {
    HasDetection(t.audit, r.user, r.inboundTxSig, r.solLamports, r.bertRaw)
      && HasSweep(t.audit, r.inboundTxSig, r.sweepTxSig)
  }

  ghost predicate Inv(s: State) {
    && DepositsOk(s.tables) && CreditedOk(s.tables) && SweepsOk(s.tables) && PipeOk(s.tables, s.pipe)
    && (s.recredit.Some? ==> RecoveredOk(s.tables, s.recredit.value))
  }

  // ----- the audit log only grows

  ghost predicate Grows(a: seq<AuditRow>, b: seq<AuditRow>) {
    |a| <= |b| && b[..|a|] == a
  }

  lemma {:induction false} NewestDetectedPrefix(a: seq<AuditRow>, b: seq<AuditRow>, n: nat, sig: Sig)
    requires Grows(a, b) && n <= |a|
    ensures NewestDetected(b, 0, n, sig) == NewestDetected(a, 0, n, sig)
  {
  }

  lemma {:induction false} GrowthKeepsEvidence(a: seq<AuditRow>, b: seq<AuditRow>)
    requires Grows(a, b)
    ensures forall user, sig, sol, bert :: HasDetection(a, user, sig, sol, bert) ==>
        HasDetection(b, user, sig, sol, bert)
    ensures forall sig, sweepTxSig :: HasSweep(a, sig, sweepTxSig) ==> HasSweep(b, sig, sweepTxSig)
  {
  }

  lemma {:induction false} GrowthKeepsSweeps(t: Tables, u: Tables)
    requires SweepsOk(t) && Grows(t.audit, u.audit)
    requires forall i :: |t.audit| <= i < |u.audit| && u.audit[i].event.DepositSwept? ==> SweepOk(u.audit, i)
    ensures SweepsOk(u)
  {
    forall i | 0 <= i < |u.audit| && u.audit[i].event.DepositSwept? ensures SweepOk(u.audit, i) {
      if i < |t.audit| {
        assert u.audit[i] == u.audit[..|t.audit|][i];
        assert SweepOk(t.audit, i);
        NewestDetectedPrefix(t.audit, u.audit, i, u.audit[i].event.inboundTxSig);
        var d := NewestDetected(t.audit, 0, i, u.audit[i].event.inboundTxSig);
        assert u.audit[d] == u.audit[..|t.audit|][d];
      }
    }
  }

  lemma {:induction false} GrowthKeepsInHand(t: Tables, u: Tables, ev: Inflow)
    requires InHand(t, ev) && Grows(t.audit, u.audit)
    requires forall i :: |t.audit| <= i < |u.audit| ==> !u.audit[i].event.DepositDetected?
    ensures InHand(u, ev)
  {
  }

  lemma {:induction false} InHandIsDetected(t: Tables, ev: Inflow)
    requires InHand(t, ev)
    ensures HasDetection(t.audit, ev.user, ev.inboundTxSig, ev.solLamports, ev.bertRaw)
  {
  }

  // ----- every step keeps them

  lemma {:induction false} GrowthKeepsRecord(t: Tables, u: Tables, k: nat)
    requires Grows(t.audit, u.audit) && k < |t.deposits| && k < |u.deposits| && u.deposits[k] == t.deposits[k]
        && DepositOk(t, k)
    ensures DepositOk(u, k)
  {
    var i: nat :| i < |t.audit| && Records(t, i, k);
    assert u.audit[i] == u.audit[..|t.audit|][i];
    assert u.audit[..i] == u.audit[..|t.audit|][..i];
    assert Records(u, i, k);
  }

  /** Deposits untouched and no new credit: the deposit part of the invariant stays. */
  lemma {:induction false} GrowthKeepsDeposits(t: Tables, u: Tables)
    requires DepositsOk(t) && CreditedOk(t) && u.deposits == t.deposits && Grows(t.audit, u.audit)
    requires forall i :: |t.audit| <= i < |u.audit| ==> !u.audit[i].event.DepositCredited?
    ensures DepositsOk(u) && CreditedOk(u)
  {
    assert forall i :: 0 <= i < |t.audit| ==> u.audit[i] == u.audit[..|t.audit|][i];
    forall k | 0 <= k < |u.deposits| ensures DepositOk(u, k) {
      GrowthKeepsRecord(t, u, k);
    }
    forall i | 0 <= i < |u.audit| && u.audit[i].event.DepositCredited?
      ensures HasDeposit(u, u.audit[i].event.inboundTxSig)
    {
      assert HasDeposit(t, t.audit[i].event.inboundTxSig);
    }
  }

  lemma {:induction false} GrowthKeepsPipe(t: Tables, u: Tables, p: Pipe)
    requires PipeOk(t, p) && Grows(t.audit, u.audit)
    requires forall i :: |t.audit| <= i < |u.audit| ==> !u.audit[i].event.DepositDetected?
    ensures PipeOk(u, p)
  {
    GrowthKeepsEvidence(t.audit, u.audit);
    if !p.Waiting? {
      GrowthKeepsInHand(t, u, p.ev);
    }
  }

  /** Rows of other kinds change nothing here. */
  lemma {:induction false} UnrelatedKeepsInv(s: State, u: Tables)
    requires Inv(s) && LeavesDeposits(s.tables, u)
    ensures Inv(s.(tables := u))
  {
    GrowthKeepsDeposits(s.tables, u);
    GrowthKeepsSweeps(s.tables, u);
    GrowthKeepsPipe(s.tables, u, s.pipe);
    GrowthKeepsEvidence(s.tables.audit, u.audit);
  }

  lemma {:induction false} AppendedRow(t: Tables, row: AuditRow)
    ensures var u := WriteAudit(t, row);
            Grows(t.audit, u.audit) && |u.audit| == |t.audit| + 1 && u.audit[|t.audit|] == row
  {
  }

  lemma {:induction false} DetectKeepsInv(s: State, ev: Inflow, at: int)
    requires Inv(s) && s.pipe.Waiting?
    ensures Inv(Next(s, Detect(ev, at)).value)
  {
    var row := AuditRow(at, ev.user, DepositDetected(ev.inboundTxSig, ev.solLamports, ev.bertRaw));
    var u := WriteAudit(s.tables, row);
    AppendedRow(s.tables, row);
    GrowthKeepsDeposits(s.tables, u);
    GrowthKeepsSweeps(s.tables, u);
    GrowthKeepsEvidence(s.tables.audit, u.audit);
  }

  lemma {:induction false} SweepKeepsInv(s: State, sweepTxSig: Sig, at: int)
    requires Inv(s) && s.pipe.Sweeping?
    ensures Inv(Next(s, SweepLands(sweepTxSig, at)).value)
  {
    var ev := s.pipe.ev;
    var row := AuditRow(at, ev.user,
                        DepositSwept(ev.inboundTxSig, sweepTxSig, ev.solLamports, ev.bertRaw, ev.confirmedAt));
    var u := WriteAudit(s.tables, row);
    AppendedRow(s.tables, row);
    GrowthKeepsDeposits(s.tables, u);
    GrowthKeepsEvidence(s.tables.audit, u.audit);
    GrowthKeepsPipe(s.tables, u, s.pipe);
    var n := |s.tables.audit|;
    NewestDetectedPrefix(s.tables.audit, u.audit, n, ev.inboundTxSig);
    var d := NewestDetected(s.tables.audit, 0, n, ev.inboundTxSig);
    assert u.audit[d] == u.audit[..n][d];
    assert SweepOk(u.audit, n);
    GrowthKeepsSweeps(s.tables, u);
    assert IsSwept(u.audit[n], ev.inboundTxSig) && u.audit[n].event.sweepTxSig == sweepTxSig;
  }

  lemma {:induction false} CreditRow(t: Tables, p: CreditParams)
    requires Credit(t, p).Some?
    ensures var u := Credit(t, p).value;
            && !HasDeposit(t, p.inboundTxSig)
            && |u.deposits| == |t.deposits| + 1 && u.deposits[..|t.deposits|] == t.deposits
            && Grows(t.audit, u.audit) && |u.audit| == |t.audit| + 1
            && var d, row := u.deposits[|t.deposits|], u.audit[|t.audit|];
            && d.user == p.user && d.inboundTxSig == p.inboundTxSig && d.sweepTxSig == p.sweepTxSig
            && d.solLamports == p.solLamports && d.bertRaw == p.bertRaw && d.mid == p.mid
            && d.navPerShareAt == p.navPerShare && d.confirmedAt == p.confirmedAt && d.sweptAt == p.sweptAt
            && Fair(d)
            && row.ts == p.now && row.user == p.user
            && row.event == DepositCredited(p.inboundTxSig, Worth(Tokens(p.solLamports, p.bertRaw), p.mid),
                                            d.sharesMinted, p.navPerShare)
  {
    DepositUsdIsWorth(p);
    hide DepositUsd, Worth, Ledger.AddShares, TotalShares, Upsert;
    MintWorth(DepositUsd(p), p.navPerShare);
  }

  lemma {:induction false} MintWorth(usd: real, nav: real)
    ensures var minted := ComputeSharesForDeposit(usd, nav); minted.Some? ==> 0.0 < nav && minted.value * nav == usd
  {
  }

  /** A credit with evidence in the audit log adds one deposit for a signature that had none. */
  lemma {:induction false} CreditKeepsDeposits(t: Tables, p: CreditParams)
    requires DepositsOk(t) && CreditedOk(t) && Credit(t, p).Some?
    requires HasDetection(t.audit, p.user, p.inboundTxSig, p.solLamports, p.bertRaw)
        && HasSweep(t.audit, p.inboundTxSig, p.sweepTxSig)
    ensures DepositsOk(Credit(t, p).value) && CreditedOk(Credit(t, p).value)
  {
    var u := Credit(t, p).value;
    var n := |t.deposits|;
    CreditRow(t, p);
    hide Credit, Fair, Worth;
    assert forall k :: 0 <= k < n ==> u.deposits[k] == u.deposits[..n][k];
    assert forall i :: 0 <= i < |t.audit| ==> u.audit[i] == u.audit[..|t.audit|][i];
    forall k | 0 <= k < |u.deposits| ensures DepositOk(u, k) {
      if k < n {
        GrowthKeepsRecord(t, u, k);
      } else {
        assert u.audit[..|t.audit|] == t.audit;
        assert Records(u, |t.audit|, n);
      }
    }
    forall j, k | 0 <= j < k < |u.deposits| ensures u.deposits[j].inboundTxSig != u.deposits[k].inboundTxSig {
      if k == n {
        assert t.deposits[j].inboundTxSig != p.inboundTxSig;
      }
    }
    forall i | 0 <= i < |t.audit| && t.audit[i].event.DepositCredited?
      ensures HasDeposit(u, t.audit[i].event.inboundTxSig) && t.audit[i].event.inboundTxSig != p.inboundTxSig
    {
      assert HasDeposit(t, t.audit[i].event.inboundTxSig);
      var k :| 0 <= k < n && t.deposits[k].inboundTxSig == t.audit[i].event.inboundTxSig;
      assert u.deposits[k] == t.deposits[k];
    }
    assert u.deposits[n].inboundTxSig == p.inboundTxSig;
  }

  lemma {:induction false} CreditKeepsInv(s: State, p: CreditParams)
    requires Inv(s) && Credit(s.tables, p).Some?
    requires HasDetection(s.tables.audit, p.user, p.inboundTxSig, p.solLamports, p.bertRaw)
    requires HasSweep(s.tables.audit, p.inboundTxSig, p.sweepTxSig)
    ensures Inv(s.(tables := Credit(s.tables, p).value))
  {
    CreditRow(s.tables, p);
    CreditKeepsDeposits(s.tables, p);
    hide Credit;
    var u := Credit(s.tables, p).value;
    GrowthKeepsSweeps(s.tables, u);
    GrowthKeepsPipe(s.tables, u, s.pipe);
    GrowthKeepsEvidence(s.tables.audit, u.audit);
  }

  lemma {:induction false} ScanFinds(t: Tables, limit: nat, sig: Sig)
    requires Scan(t.audit, limit, sig).Some?
    ensures RecoveredOk(t, Scan(t.audit, limit, sig).value)
  {
  }

  lemma {:induction false} PlainAudit(t: Tables, row: AuditRow)
    requires Unrelated(row.event)
    ensures LeavesDeposits(t, WriteAudit(t, row))
  {
  }

  lemma {:induction false} FailureKeepsInv(s: State, ev: Inflow, at: int)
    requires Inv(s)
    ensures Inv(Failure(s, ev, at))
  {
    var row := AuditRow(at, ev.user, DepositSweepFailed(ev.inboundTxSig));
    PlainAudit(s.tables, row);
    UnrelatedKeepsInv(s, WriteAudit(s.tables, row));
  }

  lemma {:induction false} PipelineCreditKeepsInv(s: State, at: int)
    requires Inv(s) && s.pipe.Priced?
    ensures Inv(Next(s, CreditRuns(at)).value)
  {
    var p := PipelineCredit(s.pipe);
    if Credit(s.tables, p).None? {
      FailureKeepsInv(s, s.pipe.ev, at);
    } else {
      InHandIsDetected(s.tables, s.pipe.ev);
      CreditKeepsInv(s, p);
    }
  }

  function Recredited(s: State, credited: Tables, r: Recovered, now: int, operator: User): State {
    s.(tables := WriteAudit(credited, AuditRow(now, operator, DepositRecredited(r.inboundTxSig, r.user))),
       recredit := None)
  }

  lemma {:induction false} RecreditedKeepsInv(s: State, credited: Tables, r: Recovered, now: int, operator: User)
    requires Inv(s.(tables := credited))
    ensures Inv(Recredited(s, credited, r, now, operator))
  {
    var row := AuditRow(now, operator, DepositRecredited(r.inboundTxSig, r.user));
    PlainAudit(credited, row);
    UnrelatedKeepsInv(s.(tables := credited), WriteAudit(credited, row));
  }

  lemma {:induction false} RecreditKeepsInv(s: State, mid: Option<Mid>, now: int, operator: User)
    requires Inv(s) && s.recredit.Some? && Next(s, RecreditAnswers(mid, now, operator)).Some?
    ensures Inv(Next(s, RecreditAnswers(mid, now, operator)).value)
  {
    hide Credit, SnapshotNav, DepositsOk, CreditedOk, SweepsOk, PipeOk, HasDetection, HasSweep, Scan;
    if mid.Some? {
      var r := s.recredit.value;
      var p := RecreditParams(s.tables, r, mid.value, now);
      if Credit(s.tables, p).Some? {
        CreditKeepsInv(s, p);
        RecreditedKeepsInv(s, Credit(s.tables, p).value, r, now, operator);
      }
    }
  }

  lemma {:induction false} NextKeepsInv(s: State, e: Step)
    requires Inv(s) && Next(s, e).Some?
    ensures Inv(Next(s, e).value)
  {
    if e.Detect? {
      DetectKeepsInv(s, e.ev, e.at);
    } else if e.SweepLands? {
      SweepKeepsInv(s, e.sweepTxSig, e.at);
    } else if e.CreditRuns? {
      PipelineCreditKeepsInv(s, e.at);
    } else if e.RecreditScans? {
      ScanFinds(s.tables, e.limit, e.inboundTxSig);
    } else if e.RecreditAnswers? {
      RecreditKeepsInv(s, e.mid, e.now, e.operator);
    } else if e.Elsewhere? {
      UnrelatedKeepsInv(s, e.tables);
    } else if e.Preflight? && !e.healthy {
      var row := AuditRow(e.at, s.pipe.ev.user, DepositDeferred(s.pipe.ev.inboundTxSig));
      PlainAudit(s.tables, row);
      UnrelatedKeepsInv(s, WriteAudit(s.tables, row));
    } else if e.SweepFails? || (e.OracleAnswers? && e.mid.None?) {
      FailureKeepsInv(s, s.pipe.ev, e.at);
    }
  }

  lemma {:induction false} RunKeepsInv(s: State, es: seq<Step>)
    requires Inv(s)
    ensures Inv(Run(s, es))
  {
    hide Inv, Next;
    if es != [] {
      var before := Run(s, es[..|es| - 1]);
      RunKeepsInv(s, es[..|es| - 1]);
      if Next(before, es[|es| - 1]).Some? {
        NextKeepsInv(before, es[|es| - 1]);
      }
    }
  }
}
