/**
  What the deposit protocol guarantees over every run: one mint per inbound signature, backed by the audit log, and
  exactly when an operator's recredit uses the user and amounts of the sweep.
 */
module DepositOutcomes {
  import opened Prelude
  import opened ShareMath
  import opened Ledger
  import opened DepositProtocol

  /** A vault without deposits, such as a bootstrapped one. */
  ghost predicate NoDepositsYet(t: Tables) {
    t.deposits == [] && forall i :: 0 <= i < |t.audit| ==> Unrelated(t.audit[i].event)
  }

  function Start(t: Tables): State {
    State(t, Waiting, None)
  }

  lemma {:induction false} StartOk(t: Tables)
    requires NoDepositsYet(t)
    ensures Inv(Start(t))
  {
  }

  /**
    However inflows are re-reported, sweeps and credits fail and operators recredit: a signature has at most one
    deposit row, each deposit row has exactly one deposit_credited row, and that row follows a detection of the
    credited user and amounts and a sweep under the credited sweep signature. The shares minted are worth, at the value
    per share the row names, what the swept tokens are worth at its prices.
   */
  lemma {:induction false} MintedAtMostOnce(t: Tables, es: seq<Step>)
    requires NoDepositsYet(t)
    ensures var u := Run(Start(t), es).tables;
            && (forall j, k :: 0 <= j < k < |u.deposits| ==> u.deposits[j].inboundTxSig != u.deposits[k].inboundTxSig)
            && (forall k :: 0 <= k < |u.deposits| ==> DepositOk(u, k))
            && (forall i, j ::
                  0 <= i < j < |u.audit| && u.audit[i].event.DepositCredited? && u.audit[j].event.DepositCredited? ==>
                  u.audit[i].event.inboundTxSig != u.audit[j].event.inboundTxSig)
            && (forall i :: 0 <= i < |u.audit| && u.audit[i].event.DepositCredited? ==>
                HasDeposit(u, u.audit[i].event.inboundTxSig))
  {
    StartOk(t);
    RunKeepsInv(Start(t), es);
  }

  /** Whatever step meets a signature that has its deposit: no share, deposit, withdrawal or snapshot changes. */
  lemma {:induction false} DuplicateChangesNothing(s: State, sig: Sig, limit: nat, mid: Option<Mid>, now: int,
                                                   operator: User)
    requires HasDeposit(s.tables, sig)
    ensures Next(s, RecreditScans(sig, limit)).None?
    ensures s.recredit.Some? && s.recredit.value.inboundTxSig == sig ==>
              Next(s, RecreditAnswers(mid, now, operator)) == Some(s.(recredit := None))
    ensures s.pipe.Priced? && s.pipe.ev.inboundTxSig == sig ==>
              Next(s, CreditRuns(now)) ==
                Some(State(s.tables.(audit := s.tables.audit
                                     + [AuditRow(now, s.pipe.ev.user, DepositSweepFailed(sig))]), Waiting, s.recredit))
  {
    hide DepositUsd, SnapshotNav, Upsert, Ledger.AddShares;
    if s.recredit.Some? && s.recredit.value.inboundTxSig == sig && mid.Some? {
      CreditRefused(s.tables, RecreditParams(s.tables, s.recredit.value, mid.value, now));
    }
    if s.pipe.Priced? && s.pipe.ev.inboundTxSig == sig {
      CreditRefused(s.tables, PipelineCredit(s.pipe));
    }
  }

  /**
    A recredit mints exactly when there is a price, the value per share is positive and the signature has no deposit
    yet; it then logs the operator and the credited user behind the credit's own row, and else changes no table.
   */
  lemma {:induction false} RecreditIsLogged(s: State, mid: Option<Mid>, now: int, operator: User)
    requires s.recredit.Some?
    ensures Next(s, RecreditAnswers(mid, now, operator)).Some?
    ensures var r, u := s.recredit.value, Next(s, RecreditAnswers(mid, now, operator)).value;
            && u.recredit.None? && u.pipe == s.pipe
            && if mid.Some? && 0.0 < SnapshotNav(s.tables) && !HasDeposit(s.tables, r.inboundTxSig) then
                 var n := |s.tables.audit|;
                 && |u.tables.deposits| == |s.tables.deposits| + 1 && |u.tables.audit| == n + 2
                 && u.tables.audit[n].event.DepositCredited? && u.tables.audit[n].user == r.user
                 && u.tables.audit[n + 1] == AuditRow(now, operator, DepositRecredited(r.inboundTxSig, r.user))
                 && u.tables.deposits[|s.tables.deposits|].user == r.user
                 && u.tables.deposits[|s.tables.deposits|].inboundTxSig == r.inboundTxSig
               else u.tables == s.tables
  {
    hide Credit, SnapshotNav, HasDeposit, Scan;
    if mid.Some? {
      var p := RecreditParams(s.tables, s.recredit.value, mid.value, now);
      CreditEffect(s.tables, p);
      if Credit(s.tables, p).Some? {
        CreditRow(s.tables, p);
      }
    }
  }

  lemma {:induction false} CreditRefused(t: Tables, p: CreditParams)
    requires HasDeposit(t, p.inboundTxSig)
    ensures Credit(t, p).None?
  {
  }

  // ----- whose deposit a recredit mints

  /** No transaction pays two deposit addresses, or the same one in two ways. */
  ghost predicate SinglePayee(inflows: iset<Inflow>) {
    forall a, b :: a in inflows && b in inflows && a.inboundTxSig == b.inboundTxSig ==>
      a.user == b.user && a.solLamports == b.solLamports && a.bertRaw == b.bertRaw
  }

  ghost predicate Reports(es: seq<Step>, inflows: iset<Inflow>) {
    forall i :: 0 <= i < |es| && es[i].Detect? ==> es[i].ev in inflows
  }

  /** A deposit_swept row of this user with these amounts under this sweep signature. */
  ghost predicate SweptFor(audit: seq<AuditRow>, user: User, sig: Sig, sweepTxSig: Sig, sol: nat, bert: nat) {
    exists i :: 0 <= i < |audit| && IsSwept(audit[i], sig) && audit[i].user == user
      && audit[i].event.sweepTxSig == sweepTxSig
                && audit[i].event.solLamports == sol && audit[i].event.bertRaw == bert
  }

  ghost predicate DepositSweptFor(t: Tables, d: Deposit) {
    SweptFor(t.audit, d.user, d.inboundTxSig, d.sweepTxSig, d.solLamports, d.bertRaw)
  }

  /** Every deposit was minted to the user, and for the amounts, of the sweep it names. */
  ghost predicate MintsFollowSweeps(t: Tables) {
    forall k :: 0 <= k < |t.deposits| ==> DepositSweptFor(t, t.deposits[k])
  }

  // Invariant of runs over given inflows.

  ghost predicate Known(inflows: iset<Inflow>, user: User, sig: Sig, sol: nat, bert: nat) {
    exists ev :: ev in inflows && ev.user == user && ev.inboundTxSig == sig && ev.solLamports == sol
      && ev.bertRaw == bert
  }

  ghost predicate RowKnown(inflows: iset<Inflow>, row: AuditRow) {
    (row.event.DepositDetected? || row.event.DepositSwept?) ==>
      Known(inflows, row.user, row.event.inboundTxSig, row.event.solLamports, row.event.bertRaw)
  }

  ghost predicate RowsKnown(inflows: iset<Inflow>, audit: seq<AuditRow>) {
    forall i :: 0 <= i < |audit| ==> RowKnown(inflows, audit[i])
  }

  ghost predicate PipeFollows(inflows: iset<Inflow>, audit: seq<AuditRow>, p: Pipe) {
    && (!p.Waiting? ==> p.ev in inflows)
    && (p.Swept? || p.Valued? || p.Priced? ==>
          SweptFor(audit, p.ev.user, p.ev.inboundTxSig, p.sweepTxSig, p.ev.solLamports, p.ev.bertRaw))
  }

  ghost predicate RecreditFollows(audit: seq<AuditRow>, r: Option<Recovered>) {
    r.Some? ==> SweptFor(audit, r.value.user, r.value.inboundTxSig, r.value.sweepTxSig, r.value.solLamports,
                         r.value.bertRaw)
  }

  ghost predicate Follows(inflows: iset<Inflow>, s: State) {
    && RowsKnown(inflows, s.tables.audit) && PipeFollows(inflows, s.tables.audit, s.pipe)
    && RecreditFollows(s.tables.audit, s.recredit) && MintsFollowSweeps(s.tables)
  }

  lemma {:induction false} GrowthKeepsSweptFor(a: seq<AuditRow>, b: seq<AuditRow>)
    requires Grows(a, b)
    ensures forall user, sig, w, sol, bert :: SweptFor(a, user, sig, w, sol, bert) ==>
        SweptFor(b, user, sig, w, sol, bert)
  {
  }

  /** Deposits untouched and only known rows appended. */
  lemma {:induction false} GrowthFollows(inflows: iset<Inflow>, s: State, u: Tables)
    requires Follows(inflows, s) && Grows(s.tables.audit, u.audit) && u.deposits == s.tables.deposits
    requires forall i :: |s.tables.audit| <= i < |u.audit| ==> RowKnown(inflows, u.audit[i])
    ensures Follows(inflows, s.(tables := u))
  {
  }

  lemma {:induction false} RowFollows(inflows: iset<Inflow>, s: State, row: AuditRow)
    requires Follows(inflows, s) && RowKnown(inflows, row)
    ensures Follows(inflows, s.(tables := WriteAudit(s.tables, row)))
  {
    AppendedRow(s.tables, row);
    GrowthFollows(inflows, s, WriteAudit(s.tables, row));
  }

  lemma {:induction false} CreditFollows(inflows: iset<Inflow>, s: State, p: CreditParams)
    requires Follows(inflows, s) && Credit(s.tables, p).Some?
    requires SweptFor(s.tables.audit, p.user, p.inboundTxSig, p.sweepTxSig, p.solLamports, p.bertRaw)
    ensures Follows(inflows, s.(tables := Credit(s.tables, p).value))
  {
    CreditRow(s.tables, p);
    hide Credit;
    var u := Credit(s.tables, p).value;
    var n := |s.tables.deposits|;
    var grown := s.tables.(audit := u.audit);
    GrowthFollows(inflows, s, grown);
    GrowthKeepsSweptFor(s.tables.audit, u.audit);
    forall k | 0 <= k < |u.deposits| ensures DepositSweptFor(u, u.deposits[k]) {
      if k < n {
        assert u.deposits[k] == u.deposits[..n][k];
        assert DepositSweptFor(grown, grown.deposits[k]);
      }
    }
  }

  lemma {:induction false} ScanFollows(inflows: iset<Inflow>, audit: seq<AuditRow>, limit: nat, sig: Sig)
    requires SinglePayee(inflows) && RowsKnown(inflows, audit)
    ensures RecreditFollows(audit, Scan(audit, limit, sig))
  {
  }

  lemma {:induction false} SweepFollows(inflows: iset<Inflow>, s: State, sweepTxSig: Sig, at: int)
    requires Follows(inflows, s) && s.pipe.Sweeping?
    ensures Follows(inflows, Next(s, SweepLands(sweepTxSig, at)).value)
  {
    var ev := s.pipe.ev;
    var row := AuditRow(at, ev.user,
                        DepositSwept(ev.inboundTxSig, sweepTxSig, ev.solLamports, ev.bertRaw, ev.confirmedAt));
    RowFollows(inflows, s, row);
    var audit := s.tables.audit + [row];
    assert IsSwept(audit[|s.tables.audit|], ev.inboundTxSig);
    assert SweptFor(audit, ev.user, ev.inboundTxSig, sweepTxSig, ev.solLamports, ev.bertRaw);
  }

  lemma {:induction false} RecreditStepFollows(inflows: iset<Inflow>, s: State, mid: Option<Mid>, now: int,
                                               operator: User)
    requires Follows(inflows, s) && s.recredit.Some?
    ensures Follows(inflows, Next(s, RecreditAnswers(mid, now, operator)).value)
  {
    hide Credit, SnapshotNav, SweptFor, RowsKnown, MintsFollowSweeps;
    if mid.Some? {
      var r := s.recredit.value;
      var p := RecreditParams(s.tables, r, mid.value, now);
      if Credit(s.tables, p).Some? {
        CreditFollows(inflows, s, p);
        RowFollows(inflows, s.(tables := Credit(s.tables, p).value),
                   AuditRow(now, operator, DepositRecredited(r.inboundTxSig, r.user)));
      }
    }
  }

  lemma {:induction false} FailureFollows(inflows: iset<Inflow>, s: State, ev: Inflow, at: int)
    requires Follows(inflows, s)
    ensures Follows(inflows, Failure(s, ev, at))
  {
    RowFollows(inflows, s, AuditRow(at, ev.user, DepositSweepFailed(ev.inboundTxSig)));
  }

  lemma {:induction false} PipelineStepFollows(inflows: iset<Inflow>, s: State, at: int)
    requires Follows(inflows, s) && s.pipe.Priced?
    ensures Follows(inflows, Next(s, CreditRuns(at)).value)
  {
    hide Credit, SweptFor, RowsKnown, MintsFollowSweeps;
    var p := PipelineCredit(s.pipe);
    if Credit(s.tables, p).None? {
      FailureFollows(inflows, s, s.pipe.ev, at);
    } else {
      CreditFollows(inflows, s, p);
    }
  }

  lemma {:induction false} NextFollows(inflows: iset<Inflow>, s: State, e: Step)
    requires SinglePayee(inflows) && Follows(inflows, s) && (e.Detect? ==> e.ev in inflows) && Next(s, e).Some?
    ensures Follows(inflows, Next(s, e).value)
  {
    hide Credit, SnapshotNav, SinglePayee;
    if e.Detect? {
      RowFollows(inflows, s, AuditRow(e.at, e.ev.user,
                                      DepositDetected(e.ev.inboundTxSig, e.ev.solLamports, e.ev.bertRaw)));
    } else if e.SweepLands? {
      SweepFollows(inflows, s, e.sweepTxSig, e.at);
    } else if e.CreditRuns? {
      PipelineStepFollows(inflows, s, e.at);
    } else if e.RecreditScans? {
      ScanFollows(inflows, s.tables.audit, e.limit, e.inboundTxSig);
    } else if e.RecreditAnswers? {
      RecreditStepFollows(inflows, s, e.mid, e.now, e.operator);
    } else if e.Elsewhere? {
      GrowthFollows(inflows, s, e.tables);
    } else if e.Preflight? && !e.healthy {
      RowFollows(inflows, s, AuditRow(e.at, s.pipe.ev.user, DepositDeferred(s.pipe.ev.inboundTxSig)));
    } else if e.SweepFails? || (e.OracleAnswers? && e.mid.None?) {
      FailureFollows(inflows, s, s.pipe.ev, e.at);
    }
  }

  lemma {:induction false} RunFollows(inflows: iset<Inflow>, s: State, es: seq<Step>)
    requires SinglePayee(inflows) && Follows(inflows, s) && Reports(es, inflows)
    ensures Follows(inflows, Run(s, es))
  {
    hide SinglePayee, Follows, Next;
    if es != [] {
      var n := |es| - 1;
      RunFollows(inflows, s, es[..n]);
      if Next(Run(s, es[..n]), es[n]).Some? {
        NextFollows(inflows, Run(s, es[..n]), es[n]);
      }
    }
  }

  /** How many audit rows the recredit command looks back over. */
  const SCAN_LIMIT := 5000

  // A transaction paying two addresses: the second detection renames the first one's sweep.

  function Renaming(a: Inflow, b: Inflow, t: Tables, mid: Mid): seq<Step> {
    [Detect(a, 0), Preflight(true, 1), SweepLands("sweep", 2), OracleAnswers(None, 3), Detect(b, 4),
     Preflight(false, 5),
     RecreditScans(a.inboundTxSig, SCAN_LIMIT), RecreditAnswers(Some(mid), 6, 0)]
  }

  function RenamedAudit(a: Inflow, b: Inflow, t: Tables): seq<AuditRow> {
    t.audit + [AuditRow(0, a.user, DepositDetected(a.inboundTxSig, a.solLamports, a.bertRaw)),
               AuditRow(2, a.user, DepositSwept(a.inboundTxSig, "sweep", a.solLamports, a.bertRaw, a.confirmedAt)),
               AuditRow(3, a.user, DepositSweepFailed(a.inboundTxSig)),
               AuditRow(4, b.user, DepositDetected(b.inboundTxSig, b.solLamports, b.bertRaw)),
               AuditRow(5, b.user, DepositDeferred(b.inboundTxSig))]
  }

  lemma {:induction false} RunSnoc(s: State, es: seq<Step>, e: Step, next: State)
    requires Next(Run(s, es), e) == Some(next)
    ensures Run(s, es + [e]) == next
  {
  }

  lemma {:induction false} RenamingPrefix(a: Inflow, b: Inflow, t: Tables, mid: Mid)
    requires a.inboundTxSig == b.inboundTxSig
    ensures Run(Start(t), Renaming(a, b, t, mid)[..6]) == State(t.(audit := RenamedAudit(a, b, t)), Waiting, None)
  {
    var es := Renaming(a, b, t, mid);
    var rows := RenamedAudit(a, b, t);
    var n := |t.audit|;
    var s0 := Start(t);
    assert es[..0] == [];
    assert rows[..n] == t.audit;
    assert forall k :: 0 <= k < 6 ==> es[..k] + [es[k]] == es[..k + 1];
    assert rows[..n + 1] == t.audit + [rows[n]];
    assert rows[..n + 2] == rows[..n + 1] + [rows[n + 1]];
    assert rows[..n + 3] == rows[..n + 2] + [rows[n + 2]];
    assert rows[..n + 4] == rows[..n + 3] + [rows[n + 3]];
    assert rows == rows[..n + 4] + [rows[n + 4]];
    RunSnoc(s0, es[..0], es[0], State(t.(audit := rows[..n + 1]), Detected(a), None));
    RunSnoc(s0, es[..1], es[1], State(t.(audit := rows[..n + 1]), Sweeping(a), None));
    RunSnoc(s0, es[..2], es[2], State(t.(audit := rows[..n + 2]), Swept(a, "sweep", 2), None));
    RunSnoc(s0, es[..3], es[3], State(t.(audit := rows[..n + 3]), Waiting, None));
    RunSnoc(s0, es[..4], es[4], State(t.(audit := rows[..n + 4]), Detected(b), None));
    RunSnoc(s0, es[..5], es[5], State(t.(audit := rows), Waiting, None));
  }

  lemma {:induction false} RenamedScan(a: Inflow, b: Inflow, t: Tables)
    requires a.inboundTxSig == b.inboundTxSig
    ensures Scan(RenamedAudit(a, b, t), SCAN_LIMIT, a.inboundTxSig) ==
              Some(Recovered(b.user, a.inboundTxSig, "sweep", b.solLamports, b.bertRaw, a.confirmedAt))
  {
    var rows := RenamedAudit(a, b, t);
    var n := |t.audit|;
    var lo := WindowStart(rows, SCAN_LIMIT);
    assert IsDetected(rows[n + 3], a.inboundTxSig) && !IsDetected(rows[n + 4], a.inboundTxSig);
    assert NewestDetected(rows, lo, n + 5, a.inboundTxSig) == n + 3;
    assert IsSwept(rows[n + 1], a.inboundTxSig) && !IsSwept(rows[n + 2], a.inboundTxSig);
    assert !IsSwept(rows[n + 3], a.inboundTxSig) && !IsSwept(rows[n + 4], a.inboundTxSig);
    assert NewestSwept(rows, lo, n + 5, a.inboundTxSig) == n + 1;
  }

  lemma {:induction false} PaidTwoWays(a: Inflow, b: Inflow, t: Tables, mid: Mid)
    requires NoDepositsYet(t) && SnapshotNav(t) > 0.0 && a.inboundTxSig == b.inboundTxSig
    requires a.user != b.user || a.solLamports != b.solLamports || a.bertRaw != b.bertRaw
    ensures !MintsFollowSweeps(Run(Start(t), Renaming(a, b, t, mid)).tables)
  {
    var es := Renaming(a, b, t, mid);
    var s6 := State(t.(audit := RenamedAudit(a, b, t)), Waiting, None);
    var r := Recovered(b.user, a.inboundTxSig, "sweep", b.solLamports, b.bertRaw, a.confirmedAt);
    RenamingPrefix(a, b, t, mid);
    RenamedScan(a, b, t);
    var s7 := s6.(recredit := Some(r));
    assert Next(s6, es[6]) == Some(s7);
    RunSnoc(Start(t), es[..6], es[6], s7);
    assert es[..6] + [es[6]] == es[..7];
    var p := RecreditParams(s7.tables, r, mid, 6);
    assert p.navPerShare == SnapshotNav(t);
    CreditEffect(s7.tables, p);
    CreditRow(s7.tables, p);
    hide Credit, SnapshotNav;
    var u := Credit(s7.tables, p).value;
    var s8 := Recredited(s7, u, r, 6, 0);
    assert Next(s7, es[7]) == Some(s8);
    RunSnoc(Start(t), es[..7], es[7], s8);
    assert es[..7] + [es[7]] == es;
    RenamedMint(a, b, t, s8.tables);
  }

  lemma {:induction false} RenamedMint(a: Inflow, b: Inflow, t: Tables, u: Tables)
    requires NoDepositsYet(t) && Grows(RenamedAudit(a, b, t), u.audit) && a.inboundTxSig == b.inboundTxSig
    requires forall i :: |t.audit| + 5 <= i < |u.audit| ==> !u.audit[i].event.DepositSwept?
    requires |u.deposits| == 1 && u.deposits[0].inboundTxSig == a.inboundTxSig && u.deposits[0].sweepTxSig == "sweep"
    requires u.deposits[0].user == b.user && u.deposits[0].solLamports == b.solLamports
        && u.deposits[0].bertRaw == b.bertRaw
    requires a.user != b.user || a.solLamports != b.solLamports || a.bertRaw != b.bertRaw
    ensures !MintsFollowSweeps(u)
  {
  }

  /**
    Every mint, recredits included, goes to the user and for the amounts of the sweep it names, in every run over the
    given inflows, if and only if no transaction among them pays two deposit addresses.
   */
  lemma {:induction false} MintsFollowSweepsIff(t: Tables, inflows: iset<Inflow>, mid: Mid)
    requires NoDepositsYet(t) && SnapshotNav(t) > 0.0
    ensures (forall es :: Reports(es, inflows) ==> MintsFollowSweeps(Run(Start(t), es).tables)) <==>
        SinglePayee(inflows)
  {
    if SinglePayee(inflows) {
      forall es | Reports(es, inflows) ensures MintsFollowSweeps(Run(Start(t), es).tables) {
        RunFollows(inflows, Start(t), es);
      }
    } else {
      var a, b :| a in inflows && b in inflows && a.inboundTxSig == b.inboundTxSig
                  && !(a.user == b.user && a.solLamports == b.solLamports && a.bertRaw == b.bertRaw);
      PaidTwoWays(a, b, t, mid);
      assert Reports(Renaming(a, b, t, mid), inflows);
    }
  }
}
