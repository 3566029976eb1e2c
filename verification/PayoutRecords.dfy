/**
  What the tables say about each withdrawal (src/vault/depositorStore.ts:152-257,
  src/vault/withdrawalExecutor.ts:62-66,125-207), over every run of the payout protocol: a row's columns agree with its
  status, a completed row has its audit row, and no payment goes unrecorded unless the process dies.
 */
module PayoutRecords {
  import opened Prelude
  import opened ShareMath
  import opened Ledger
  import opened PayoutProtocol
  import opened PayoutQuotes

  /** The columns a row's status fills. */
  ghost predicate ColumnsOk(w: Withdrawal) {
    match w.status
    case Queued => w.txSig.None? && w.payout.None? && w.failureReason.None? && w.processedAt.None?
    case Processing => w.payout.None? && w.failureReason.None? && w.processedAt.None?
    case Completed => w.txSig.Some? && w.payout.Some? && w.failureReason.None? && w.processedAt.Some?
    case Failed => w.txSig.None? && w.payout.None? && w.failureReason.Some? && w.processedAt.Some?
  }

  /** The audit row of the row's completion: its owner, its claim, and what its transfer was quoted. */
  ghost predicate CompletionAudited(w: Withdrawal, id: nat, chain: seq<Transfer>, audit: seq<AuditRow>) {
    exists k, a :: 0 <= k < |chain| && 0 <= a < |audit| && chain[k].id == id && w.processedAt.Some?
                   && audit[a] == Completion(w, w.processedAt.value, chain[k])
  }

  function Completion(w: Withdrawal, at: int, t: Transfer): AuditRow {
    AuditRow(at, w.user, WithdrawalCompleted(t.id, t.sig, w.sharesBurned, w.feeShares, t.quote.usdOwed,
                                             t.quote.navPerShare))
  }

  ghost predicate RowRecorded(v: Vault, id: nat)
    requires HasRow(v.tables, id)
  {
    var w := v.tables.withdrawals[id];
    && ColumnsOk(w)
    && (w.status.Completed? ==> CompletionAudited(w, id, v.chain, v.tables.audit))
  }

  ghost predicate RecordsOk(v: Vault) {
    forall id :: 0 <= id < |v.tables.withdrawals| ==> RowRecorded(v, id)
  }

  // ----- every step keeps the records

  ghost predicate AuditGrows(v: Vault, r: Vault) {
    |v.tables.audit| <= |r.tables.audit| && r.tables.audit[..|v.tables.audit|] == v.tables.audit
  }

  lemma {:induction false} HandlerAudits(c: Config, v: Vault, e: Step)
    requires HandlerStep(c, v, e).Some?
    ensures AuditGrows(v, HandlerStep(c, v, e).value)
  {
    hide TotalShares, Latest, Upsert, AddShares, DepositUsd;
  }

  lemma {:induction false} DrainAudits(c: Config, v: Vault, e: Step)
    requires DrainStep(c, v, e).Some?
    ensures AuditGrows(v, DrainStep(c, v, e).value)
  {
    hide MakeQuote, TotalShares, Latest, Covers, IdsByStatus, Settle, SettleSnapshot;
    if e.SettleSucceeds? && v.drain.Draining? && v.drain.pc.Marked? {
      SettleAudits(v.tables, v.drain.pc.id, v.drain.pc.sig, v.drain.pc.quote, v.drain.pc.now);
    }
  }

  lemma {:induction false} SettleAudits(t: Tables, id: nat, sig: Sig, q: Quote, now: int)
    ensures var u := Settle(t, id, sig, q, now);
            u.Some? ==> |u.value.audit| == |t.audit| + 1 && u.value.audit[..|t.audit|] == t.audit
  {
  }

  /** Rows, transfers and audit rows stay. */
  lemma {:induction false} NextCarries(c: Config, v: Vault, e: Step)
    requires Inv(c, v) && Next(c, v, e).Some?
    ensures Carries(v, Next(c, v, e).value) && AuditGrows(v, Next(c, v, e).value)
  {
    hide HandlerStep, DrainStep, Inv, Carries, AuditGrows;
    if HandlerStep(c, v, e).Some? {
      HandlerCarries(c, v, e);
      HandlerAudits(c, v, e);
    } else {
      DrainCarries(c, v, e);
      DrainAudits(c, v, e);
    }
  }

  lemma {:induction false} StaysAudited(v: Vault, r: Vault, id: nat)
    requires HasRow(v.tables, id) && v.tables.withdrawals[id].status.Completed? && RowRecorded(v, id)
    requires Carries(v, r) && AuditGrows(v, r)
    ensures RowRecorded(r, id)
  {
    var w := v.tables.withdrawals[id];
    var k, a :| 0 <= k < |v.chain| && 0 <= a < |v.tables.audit| && v.chain[k].id == id
                && v.tables.audit[a] == Completion(w, w.processedAt.value, v.chain[k]);
    assert r.chain[k] == r.chain[..|v.chain|][k];
    assert r.tables.audit[a] == r.tables.audit[..|v.tables.audit|][a];
  }

  /** A row that is not completed keeps its columns in order. */
  ghost predicate Unfinished(ws: seq<Withdrawal>, id: nat) {
    id < |ws| && !ws[id].status.Completed? && ColumnsOk(ws[id])
  }

  lemma {:induction false} HandlerColumns(c: Config, v: Vault, e: Step, id: nat)
    requires RecordsOk(v) && HandlerStep(c, v, e).Some?
    requires HasRow(HandlerStep(c, v, e).value.tables, id)
    ensures Unfinished(HandlerStep(c, v, e).value.tables.withdrawals, id)
            || (HasRow(v.tables, id) && v.tables.withdrawals[id].status.Completed?)
  {
    hide CompletionAudited, DepositUsd, Upsert, AddShares, Latest, TotalShares;
    if HasRow(v.tables, id) {
      assert RowRecorded(v, id);
    }
    if e.CreditDeposit? {
      CreditEffect(v.tables, e.params);
      hide Credit;
    }
  }

  ghost predicate KeepsColumns(v: Vault, r: Vault) {
    RowsKeepColumns(v.tables.withdrawals, r.tables.withdrawals)
  }

  ghost predicate RowsKeepColumns(ws: seq<Withdrawal>, after: seq<Withdrawal>) {
    |after| == |ws| && forall id :: 0 <= id < |ws| ==> after[id] == ws[id] || Unfinished(after, id)
  }

  lemma {:induction false} FailColumns(v: Vault, id: nat, reason: string, at: int)
    requires v.drain.Draining? && RecordsOk(v) && HasRow(v.tables, id)
    requires v.tables.withdrawals[id].status.Processing? && v.tables.withdrawals[id].txSig.None?
    ensures KeepsColumns(v, FailRow(v, id, reason, at))
  {
    assert RowRecorded(v, id);
  }

  lemma {:induction false} TakeColumns(c: Config, v: Vault, now: int)
    requires RecordsOk(v) && DrainStep(c, v, TakeRow(now)).Some?
    ensures KeepsColumns(v, DrainStep(c, v, TakeRow(now)).value)
  {
    if HasRow(v.tables, v.drain.todo[0]) {
      assert RowRecorded(v, v.drain.todo[0]);
    }
  }

  lemma {:induction false} MarkColumns(c: Config, v: Vault)
    requires DrainOk(c, v) && RecordsOk(v) && DrainStep(c, v, MarkSentSucceeds).Some?
    ensures KeepsColumns(v, DrainStep(c, v, MarkSentSucceeds).value)
  {
    assert RowRecorded(v, v.drain.pc.id);
  }

  lemma {:induction false} DrainColumns(c: Config, v: Vault, e: Step)
    requires DrainOk(c, v) && RecordsOk(v) && DrainStep(c, v, e).Some? && !e.SettleSucceeds?
    ensures KeepsColumns(v, DrainStep(c, v, e).value)
  {
    hide MakeQuote, TotalShares, Settle, PaysWithinDust, Latest, SettleSnapshot, IdsByStatus, FailWithdrawal, MarkSent,
      SetProcessing, RecordsOk, Unfinished, Paid, PaidWith;
    if e.TakeRow? {
      TakeColumns(c, v, e.now);
    } else if e.MarkSentSucceeds? {
      MarkColumns(c, v);
    } else if e.TransferThrows? {
      FailColumns(v, v.drain.pc.id, e.reason, v.drain.pc.now);
    } else if e.OracleAnswers? && e.mid.None? {
      FailColumns(v, v.drain.pc.id, "oracle_unavailable", v.drain.pc.now);
    } else if e.RereadAnswers? {
      FailColumns(v, v.drain.pc.id, "reserves_insufficient", v.drain.pc.now);
    } else if e.CatchHandles? && v.tables.withdrawals[v.drain.pc.id].txSig.None? {
      FailColumns(v, v.drain.pc.id, "unexpected", e.at);
    }
  }

  lemma {:induction false} SettlementAudits(c: Config, v: Vault)
    requires DrainOk(c, v) && RecordsOk(v) && v.drain.Draining? && v.drain.pc.Marked?
    requires PaidAs(v.chain, v.drain.pc.id, v.drain.pc.sig, v.drain.pc.quote)
    ensures DrainStep(c, v, SettleSucceeds).Some?
    ensures var r := DrainStep(c, v, SettleSucceeds).value; RowRecorded(r, v.drain.pc.id)
  {
    SettleStep(c, v);
    var pc := v.drain.pc;
    var k :| 0 <= k < |v.chain| && v.chain[k].id == pc.id && v.chain[k].sig == pc.sig && v.chain[k].quote == pc.quote;
    hide DrainStep, TotalShares, Upsert, AddShares, Latest;
    var r := DrainStep(c, v, SettleSucceeds).value;
    var w := v.tables.withdrawals[pc.id];
    assert RowRecorded(v, pc.id);
    assert r.tables.audit[|v.tables.audit|] == Completion(w, pc.now, r.chain[k]);
  }

  lemma {:induction false} NextKeepsRecords(c: Config, v: Vault, e: Step)
    requires Inv(c, v) && QuotesOk(c, v) && RecordsOk(v) && Next(c, v, e).Some?
    ensures RecordsOk(Next(c, v, e).value)
  {
    NextCarries(c, v, e);
    hide HandlerStep, DrainStep, RowRecorded, Unfinished, Carries, AuditGrows;
    var r := Next(c, v, e).value;
    forall id | 0 <= id < |r.tables.withdrawals| ensures RowRecorded(r, id) {
      if HasRow(v.tables, id) && v.tables.withdrawals[id].status.Completed? {
        StaysAudited(v, r, id);
      } else if HandlerStep(c, v, e).Some? {
        HandlerColumns(c, v, e, id);
        UnfinishedRecorded(r, id);
      } else {
        DrainRecords(c, v, e, id);
      }
    }
  }

  lemma {:induction false} DrainRecords(c: Config, v: Vault, e: Step, id: nat)
    requires Inv(c, v) && QuotesOk(c, v) && RecordsOk(v) && DrainStep(c, v, e).Some?
    requires HasRow(DrainStep(c, v, e).value.tables, id)
    requires HasRow(v.tables, id) ==> !v.tables.withdrawals[id].status.Completed?
    ensures RowRecorded(DrainStep(c, v, e).value, id)
  {
    hide DrainStep, RowRecorded, Unfinished, SharesOk, SnapshotsOk, DestinationsOk, RowsOk, ChainOk;
    var r := DrainStep(c, v, e).value;
    if e.SettleSucceeds? {
      SettledRow(c, v);
      SettlementAudits(c, v);
      if id != v.drain.pc.id {
        SameRowRecorded(v, r, id);
      }
    } else {
      DrainColumns(c, v, e);
      if r.tables.withdrawals[id] == v.tables.withdrawals[id] {
        SameRowRecorded(v, r, id);
      } else {
        UnfinishedRecorded(r, id);
      }
    }
  }

  lemma {:induction false} UnfinishedRecorded(r: Vault, id: nat)
    requires Unfinished(r.tables.withdrawals, id)
    ensures RowRecorded(r, id)
  {
  }

  lemma {:induction false} SameRowRecorded(v: Vault, r: Vault, id: nat)
    requires HasRow(v.tables, id) && HasRow(r.tables, id) && r.tables.withdrawals[id] == v.tables.withdrawals[id]
    requires RowRecorded(v, id) && !v.tables.withdrawals[id].status.Completed?
    ensures RowRecorded(r, id)
  {
  }

  lemma {:induction false} RunKeepsRecords(c: Config, v: Vault, es: seq<Step>)
    requires Inv(c, v) && QuotesOk(c, v) && RecordsOk(v) && !c.handlerAuditMayThrow
    ensures RecordsOk(Run(c, v, es))
  {
    hide Inv, QuotesOk, RecordsOk, Next;
    if es != [] {
      var before, e := Run(c, v, es[..|es| - 1]), es[|es| - 1];
      RunKeepsRecords(c, v, es[..|es| - 1]);
      RunKeepsInv(c, v, es[..|es| - 1]);
      RunKeepsQuotes(c, v, es[..|es| - 1]);
      if Next(c, before, e).Some? {
        NextKeepsRecords(c, before, e);
      }
    }
  }

  /**
    In every run of a bootstrapped vault a row's columns agree with its status: only failed rows have a reason, only
    completed ones a payout, only those two a processing time, and a requeued row looks like a fresh one. Every
    completed row has the audit row that names its owner, signature, claim, debt and value per share.
   */
  lemma {:induction false} RowsAreRecorded(c: Config, operator: User, initialNavUsd: real, now: int, es: seq<Step>,
                                           id: nat)
    requires !c.handlerAuditMayThrow
    requires id < |Run(c, Start(operator, initialNavUsd, now), es).tables.withdrawals|
    ensures var v := Run(c, Start(operator, initialNavUsd, now), es);
            var w := v.tables.withdrawals[id];
            && ColumnsOk(w)
            && (w.status.Completed? ==> CompletionAudited(w, id, v.chain, v.tables.audit))
  {
    hide Run;
    var start := Start(operator, initialNavUsd, now);
    StartInv(c, operator, initialNavUsd, now);
    StartQuoted(c, operator, initialNavUsd, now);
    RunKeepsRecords(c, start, es);
    assert RowRecorded(Run(c, start, es), id);
  }

  // ----- no payment is lost

  /** The operator's alert for a payment the tables may not know of. */
  ghost predicate Alerted(v: Vault, t: Transfer) {
    t.id < |v.tables.withdrawals| &&
    exists a :: 0 <= a < |v.tables.audit| && v.tables.audit[a].user == v.tables.withdrawals[t.id].user
                && v.tables.audit[a].event == WithdrawalDbSyncFailed(t.id, t.sig)
  }

  /** The drain is between the row's transfer and its settlement. */
  predicate InHand(v: Vault, t: Transfer) {
    v.drain.Draining? &&
    match v.drain.pc
    case Sent(id, _, _, sig) => id == t.id && sig == t.sig
    case Marked(id, _, _, sig) => id == t.id && sig == t.sig
    case _ => false
  }

  ghost predicate Accounted(v: Vault, t: Transfer) {
    (t.id < |v.tables.withdrawals| && v.tables.withdrawals[t.id].status.Completed?) || Alerted(v, t) || InHand(v, t)
  }

  ghost predicate AllAccounted(v: Vault) {
    forall k :: 0 <= k < |v.chain| ==> Accounted(v, v.chain[k])
  }

  /** A transfer in hand is settled, alerted or stays in hand. */
  lemma {:induction false} HandMoves(c: Config, v: Vault, e: Step, t: Transfer)
    requires DrainOk(c, v) && InHand(v, t) && !e.Crash? && Next(c, v, e).Some? && !c.handlerAuditMayThrow
    ensures Accounted(Next(c, v, e).value, t)
  {
    hide Alerted, MakeQuote, TotalShares, Latest, Upsert, AddShares, DepositUsd, Covers, IdsByStatus, PaysWithinDust,
      Paid, PaidWith;
    var r := Next(c, v, e).value;
    if e.MarkSentFaults? || e.SettleFaults? {
      assert r.tables.audit[|v.tables.audit|].event == WithdrawalDbSyncFailed(t.id, t.sig);
      NewAlert(v, r, t);
    }
  }

  lemma {:induction false} NewAlert(v: Vault, r: Vault, t: Transfer)
    requires HasRow(v.tables, t.id) && r.tables.withdrawals == v.tables.withdrawals
    requires |r.tables.audit| == |v.tables.audit| + 1
    requires r.tables.audit[|v.tables.audit|].user == v.tables.withdrawals[t.id].user
    requires r.tables.audit[|v.tables.audit|].event == WithdrawalDbSyncFailed(t.id, t.sig)
    ensures Alerted(r, t)
  {
  }

  lemma {:induction false} StaysAccounted(v: Vault, r: Vault, t: Transfer)
    requires Accounted(v, t) && !InHand(v, t) && Carries(v, r) && AuditGrows(v, r)
    ensures Accounted(r, t)
  {
    if Alerted(v, t) {
      var a :| 0 <= a < |v.tables.audit| && v.tables.audit[a].user == v.tables.withdrawals[t.id].user
               && v.tables.audit[a].event == WithdrawalDbSyncFailed(t.id, t.sig);
      assert r.tables.audit[a] == r.tables.audit[..|v.tables.audit|][a];
    }
  }

  /** A transfer just landed is in hand. */
  lemma {:induction false} DrainTransfers(c: Config, v: Vault, e: Step)
    requires DrainStep(c, v, e).Some?
    ensures var r := DrainStep(c, v, e).value;
            |r.chain| <= |v.chain| + 1 && (|r.chain| == |v.chain| + 1 ==> Accounted(r, r.chain[|v.chain|]))
  {
    hide MakeQuote, TotalShares, Latest, Covers, IdsByStatus, Settle, SettleSnapshot, Alerted, FailWithdrawal, MarkSent,
      SetProcessing;
  }

  lemma {:induction false} NewTransferInHand(c: Config, v: Vault, e: Step)
    requires Next(c, v, e).Some?
    ensures var r := Next(c, v, e).value;
            |r.chain| <= |v.chain| + 1 && (|r.chain| == |v.chain| + 1 ==> Accounted(r, r.chain[|v.chain|]))
  {
    hide HandlerStep, DrainStep, Accounted;
    if HandlerStep(c, v, e).Some? {
      HandlerCarries(c, v, e);
    } else {
      DrainTransfers(c, v, e);
    }
  }

  lemma {:induction false} NextAccounts(c: Config, v: Vault, e: Step)
    requires Inv(c, v) && AllAccounted(v) && !e.Crash? && Next(c, v, e).Some? && !c.handlerAuditMayThrow
    ensures AllAccounted(Next(c, v, e).value)
  {
    hide HandlerStep, DrainStep, Accounted, Carries, AuditGrows, Inv;
    var r := Next(c, v, e).value;
    NextCarries(c, v, e);
    NewTransferInHand(c, v, e);
    forall k | 0 <= k < |r.chain| ensures Accounted(r, r.chain[k]) {
      if k < |v.chain| {
        TransferStays(v, r, k);
        TransferAccounted(c, v, e, v.chain[k]);
      }
    }
  }

  lemma {:induction false} TransferStays(v: Vault, r: Vault, k: nat)
    requires Carries(v, r) && k < |v.chain|
    ensures k < |r.chain| && r.chain[k] == v.chain[k]
  {
    assert r.chain[k] == r.chain[..|v.chain|][k];
  }

  lemma {:induction false} TransferAccounted(c: Config, v: Vault, e: Step, t: Transfer)
    requires Inv(c, v) && Accounted(v, t) && !e.Crash? && Next(c, v, e).Some? && !c.handlerAuditMayThrow
    ensures Accounted(Next(c, v, e).value, t)
  {
    NextCarries(c, v, e);
    hide Next, Accounted, InHand, Carries, AuditGrows, DrainOk, SharesOk, SnapshotsOk, DestinationsOk, RowsOk, ChainOk;
    if InHand(v, t) {
      HandMoves(c, v, e, t);
    } else {
      StaysAccounted(v, Next(c, v, e).value, t);
    }
  }

  ghost predicate NeverDies(es: seq<Step>) {
    forall i :: 0 <= i < |es| ==> !es[i].Crash?
  }

  /**
    As long as the process does not die, every landed transfer's row is completed, or an audit row tells the operator
    its id and signature, or the drain is just between the transfer and the settlement.
   */
  lemma {:induction false} EveryPaymentIsAccountedFor(c: Config, operator: User, initialNavUsd: real, now: int,
                                                      es: seq<Step>, k: nat)
    requires !c.handlerAuditMayThrow && NeverDies(es)
    requires k < |Run(c, Start(operator, initialNavUsd, now), es).chain|
    ensures var v := Run(c, Start(operator, initialNavUsd, now), es); Accounted(v, v.chain[k])
  {
    hide Run;
    StartInv(c, operator, initialNavUsd, now);
    RunAccounts(c, Start(operator, initialNavUsd, now), es);
  }

  lemma {:induction false} RunAccounts(c: Config, v: Vault, es: seq<Step>)
    requires Inv(c, v) && AllAccounted(v) && !c.handlerAuditMayThrow && NeverDies(es)
    ensures AllAccounted(Run(c, v, es))
  {
    hide Inv, AllAccounted, Next;
    if es != [] {
      var before, e := Run(c, v, es[..|es| - 1]), es[|es| - 1];
      RunAccounts(c, v, es[..|es| - 1]);
      RunKeepsInv(c, v, es[..|es| - 1]);
      if Next(c, before, e).Some? {
        NextAccounts(c, before, e);
      }
    }
  }

  /** Dying between the transfer and the settlement is what leaves a payment without a record. */
  lemma {:induction false} DeathForgets(c: Config, v: Vault, k: nat)
    requires Inv(c, v) && k < |v.chain| && InHand(v, v.chain[k]) && !Alerted(v, v.chain[k])
    ensures var r := Next(c, v, Crash); r.Some? && r.value.chain == v.chain && !Accounted(r.value, v.chain[k])
  {
    hide SharesOk, SnapshotsOk, DestinationsOk, ChainOk, RowsOk;
  }

  // ----- what a row is queued as

  /** The handler's read and its queueing make one row of exactly what was asked, to the address active at the read. */
  lemma {:induction false} QueuedAsAsked(c: Config, v: Vault, user: User, burned: real, fee: real, at: int)
    requires v.request.None? && user in v.whitelist.active
    ensures var waiting := Next(c, v, ReadAddress(user));
            && waiting.Some?
            && var r := Next(c, waiting.value, QueueWithdrawal(burned, fee, at));
            && r.Some? && r.value.request.None?
            && |r.value.tables.withdrawals| == |v.tables.withdrawals| + 1
            && r.value.tables.withdrawals[..|v.tables.withdrawals|] == v.tables.withdrawals
            && var w := r.value.tables.withdrawals[|v.tables.withdrawals|];
            && w.user == user && w.destination == v.whitelist.active[user] && w.sharesBurned == burned
            && w.feeShares == fee && w.queuedAt == at && w.status.Queued? && ColumnsOk(w)
  {
    hide DrainStep;
  }

  /**
    An operator's requeue goes through exactly for a failed row that no transfer was ever recorded for; the row is
    queued with its old claim, and the log names the operator.
   */
  lemma {:induction false} RequeueIsLogged(c: Config, v: Vault, id: nat, operator: User, at: int)
    ensures HandlerStep(c, v, Requeue(id, operator, at)).Some? <==>
              HasRow(v.tables, id) && v.tables.withdrawals[id].status.Failed? && v.tables.withdrawals[id].txSig.None?
    ensures HandlerStep(c, v, Requeue(id, operator, at)).Some? ==>
              var r := HandlerStep(c, v, Requeue(id, operator, at)).value;
              && r.tables.audit == v.tables.audit + [AuditRow(at, operator, WithdrawalRequeued(id))]
              && |r.tables.withdrawals| == |v.tables.withdrawals|
              && SameClaim(v.tables.withdrawals[id], r.tables.withdrawals[id])
              && r.tables.withdrawals[id].status.Queued? && r.chain == v.chain && r.drain == v.drain
              && r.tables.shares == v.tables.shares
  {
    RequeueEffect(v.tables, id);
  }

  // ----- why a row fails

  /** The row is failed with this reason and time, nothing was sent, no other row moved, and the drain goes on. */
  ghost predicate FailsWith(v: Vault, n: Option<Vault>, id: nat, reason: string, at: int) {
    && HasRow(v.tables, id) && n.Some? && n.value.chain == v.chain && AtNextRow(n.value)
    && |n.value.tables.withdrawals| == |v.tables.withdrawals|
    && (forall j :: 0 <= j < |v.tables.withdrawals| && j != id ==>
          n.value.tables.withdrawals[j] == v.tables.withdrawals[j])
    && var w := n.value.tables.withdrawals[id];
    && SameClaim(v.tables.withdrawals[id], w) && w.status.Failed? && w.txSig.None?
    && w.failureReason == Some(reason) && w.processedAt == Some(at)
  }

  predicate AtNextRow(v: Vault) {
    v.drain.Draining? && v.drain.pc.NextRow?
  }

  /**
    Why a row fails: no oracle price, a wallet still short after the partial close, a transfer that throws, or an
    exception before the transfer; the time is the row's clock read, and the catch's own for an exception.
   */
  lemma {:induction false} FailuresSayWhy(c: Config, v: Vault, e: Step)
    requires Inv(c, v) && v.drain.Draining?
    ensures v.drain.pc.Taken? && e == OracleAnswers(None) ==>
              FailsWith(v, DrainStep(c, v, e), v.drain.pc.id, "oracle_unavailable", v.drain.pc.now)
    ensures v.drain.pc.Freed? && e.RereadAnswers? && !Covers(e.bal, c.reserve, v.drain.pc.quote.need) ==>
              FailsWith(v, DrainStep(c, v, e), v.drain.pc.id, "reserves_insufficient", v.drain.pc.now)
    ensures v.drain.pc.Ready? && e.TransferThrows? ==>
              && FailsWith(v, DrainStep(c, v, e), v.drain.pc.id, e.reason, v.drain.pc.now)
              && DrainStep(c, v, e).value.tables.audit == v.tables.audit +
                 [AuditRow(v.drain.pc.now, v.tables.withdrawals[v.drain.pc.id].user, WithdrawalFailed(v.drain.pc.id))]
    ensures v.drain.pc.Raised? && e.CatchHandles? && v.tables.withdrawals[v.drain.pc.id].txSig.None? ==>
              FailsWith(v, DrainStep(c, v, e), v.drain.pc.id, "unexpected", e.at)
  {
    hide SharesOk, SnapshotsOk, DestinationsOk, RowsOk, ChainOk, PaysWithinDust, Covers, MakeQuote, IdsByStatus, Paid,
      PaidWith, FailsWith, FailWithdrawal, Settle, TotalShares;
    if v.drain.pc.Taken? {
      FailedRow(v, v.drain.pc.id, "oracle_unavailable", v.drain.pc.now);
    } else if v.drain.pc.Freed? {
      FailedRow(v, v.drain.pc.id, "reserves_insufficient", v.drain.pc.now);
    } else if v.drain.pc.Ready? && e.TransferThrows? {
      ThrownTransfer(c, v, e.reason);
    } else if v.drain.pc.Raised? && e.CatchHandles? && v.tables.withdrawals[v.drain.pc.id].txSig.None? {
      FailedRow(v, v.drain.pc.id, "unexpected", e.at);
    }
  }

  lemma {:induction false} FailedRow(v: Vault, id: nat, reason: string, at: int)
    requires v.drain.Draining? && HasRow(v.tables, id) && v.tables.withdrawals[id].txSig.None?
    ensures FailsWith(v, Some(FailRow(v, id, reason, at)), id, reason, at)
  {
  }

  lemma {:induction false} ThrownTransfer(c: Config, v: Vault, reason: string)
    requires v.drain.Draining? && v.drain.pc.Ready? && Unpaid(v, v.drain.pc.id)
    ensures FailsWith(v, DrainStep(c, v, TransferThrows(reason)), v.drain.pc.id, reason, v.drain.pc.now)
    ensures DrainStep(c, v, TransferThrows(reason)).value.tables.audit == v.tables.audit +
            [AuditRow(v.drain.pc.now, v.tables.withdrawals[v.drain.pc.id].user, WithdrawalFailed(v.drain.pc.id))]
  {
  }

  // ----- where a drain goes on

  /**
    Between rows a drain ends exactly when every listed row was taken, and otherwise takes the next one. An error that
    escapes it leaves the rest queued, and the next drain lists them again.
   */
  lemma {:induction false} DrainGoesOn(c: Config, v: Vault, now: int)
    requires Inv(c, v) && v.drain.Draining?
    ensures v.drain.pc.NextRow? ==>
              && (DrainStep(c, v, EndDrain).Some? <==> v.drain.todo == [])
              && (DrainStep(c, v, TakeRow(now)).Some? <==> v.drain.todo != [])
    ensures v.drain.pc.Raised? ==>
              var ended := DrainStep(c, v, CatchFaults);
              && ended.Some? && ended.value.tables == v.tables
              && var again := DrainStep(c, ended.value, BeginDrain);
              && again.Some? && again.value.drain.Draining?
              && forall id :: id in v.drain.todo ==> id in again.value.drain.todo
  {
    hide SharesOk, SnapshotsOk, DestinationsOk, RowsOk, ChainOk, Covers, MakeQuote, IdsByStatus, Settle, PcOk;
    IdsByStatusExact(v.tables.withdrawals, Queued, |v.tables.withdrawals|);
    forall id | id in v.drain.todo
      ensures id in IdsByStatus(v.tables.withdrawals, Queued, |v.tables.withdrawals|)
    {
      var k :| 0 <= k < |v.drain.todo| && v.drain.todo[k] == id;
    }
  }

  // ----- what a settlement writes beside the row

  /** The snapshot written at a settlement is the row's own: its clock read, its value per share, the live shares. */
  lemma {:induction false} SettlementSnapshot(c: Config, v: Vault)
    requires Inv(c, v) && v.drain.Draining? && v.drain.pc.Marked?
    ensures DrainStep(c, v, SettleSucceeds).Some?
    ensures var r := DrainStep(c, v, SettleSucceeds).value;
            && r.lastSnapshot in r.tables.snapshots && r.lastSnapshot.source.WithdrawalSource?
            && r.lastSnapshot.ts == v.drain.pc.now && r.lastSnapshot.navPerShare == v.drain.pc.quote.navPerShare
            && r.lastSnapshot.totalShares == TotalShares(r.tables.shares)
  {
    SettleStep(c, v);
    var pc := v.drain.pc;
    SettleRows(v.tables, pc.id, pc.sig, pc.quote, pc.now);
    var t := Settle(v.tables, pc.id, pc.sig, pc.quote, pc.now).value;
    var k := UpsertShape(v.tables.snapshots, SettleSnapshot(v.tables, t, pc.id, pc.quote, pc.now));
    assert t.snapshots[k] == SettleSnapshot(v.tables, t, pc.id, pc.quote, pc.now);
    hide DrainStep, Settle, Upsert, TotalShares, Latest, Inv, DrainOk;
  }
}
