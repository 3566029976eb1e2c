/**
  The vault's tables (src/vault/depositorStore.ts, schema in src/stateStore.ts:31-116) as values,
  with the effect of every statement the store runs on them. Row ids are table positions.
  A transaction is all-or-nothing: an operation that throws returns None and changes nothing.
 */
module Ledger {
  import opened Prelude
  import opened ShareMath

  type User = int
  type Address = string
  type Sig = string

  datatype ShareRow = ShareRow(user: User, shares: real)

  datatype Deposit = Deposit(user: User, inboundTxSig: Sig, sweepTxSig: Sig, solLamports: nat, bertRaw: nat,
                             mid: Mid, navPerShareAt: real, sharesMinted: real, confirmedAt: int, sweptAt: int)

  datatype Status = Queued | Processing | Completed | Failed

  datatype Payout = Payout(out: Tokens, navPerShareAt: real)

  datatype Withdrawal = Withdrawal(
    user: User, status: Status, destination: Address, sharesBurned: real, feeShares: real, queuedAt: int,
    txSig: Option<Sig>, payout: Option<Payout>, failureReason: Option<string>, processedAt: Option<int>)

  datatype Source = BootstrapSource | DepositSource | WithdrawalSource

  datatype Snapshot = Snapshot(ts: int, totalValueUsd: real, totalShares: real, navPerShare: real, source: Source)

  datatype Event =
    | Bootstrap
    | DepositDetected(inboundTxSig: Sig, solLamports: nat, bertRaw: nat)
    | DepositDeferred(inboundTxSig: Sig)
    | DepositSwept(inboundTxSig: Sig, sweepTxSig: Sig, solLamports: nat, bertRaw: nat, confirmedAt: int)
    | DepositSweepFailed(inboundTxSig: Sig)
    | DepositCredited(inboundTxSig: Sig, depositUsd: real, sharesMinted: real, navPerShare: real)
    | DepositRecredited(inboundTxSig: Sig, target: User)
    | WithdrawalRequeued(id: nat)
    | WithdrawalFailed(id: nat)
    | WithdrawalDbSyncFailed(id: nat, txSig: Sig)
    | WithdrawalCompleted(id: nat, txSig: Sig, sharesBurned: real, feeShares: real, usdOwed: real, navPerShare: real)

  datatype AuditRow = AuditRow(ts: int, user: User, event: Event)

  datatype Tables = Tables(shares: seq<ShareRow>, deposits: seq<Deposit>, withdrawals: seq<Withdrawal>,
                           snapshots: seq<Snapshot>, audit: seq<AuditRow>)

  const EMPTY := Tables([], [], [], [], [])

  // ----- shares

  function TotalShares(rows: seq<ShareRow>): real {
    if rows == [] then 0.0 else rows[0].shares + TotalShares(rows[1..])
  }

  function SharesOf(rows: seq<ShareRow>, user: User): real {
    if rows == [] then 0.0 else if rows[0].user == user then rows[0].shares else SharesOf(rows[1..], user)
  }

  /** Add to the user's row, or insert one. */
  function AddShares(rows: seq<ShareRow>, user: User, delta: real): seq<ShareRow> {
    if rows == [] then [ShareRow(user, delta)]
    else if rows[0].user == user then [ShareRow(user, rows[0].shares + delta)] + rows[1..]
    else [rows[0]] + AddShares(rows[1..], user, delta)
  }

  /** The total moves by exactly the delta, the user's balance by the delta, and nobody else's moves. */
  lemma {:induction false} AddSharesEffect(rows: seq<ShareRow>, user: User, delta: real)
    ensures TotalShares(AddShares(rows, user, delta)) == TotalShares(rows) + delta
    ensures SharesOf(AddShares(rows, user, delta), user) == SharesOf(rows, user) + delta
    ensures forall other :: other != user ==> SharesOf(AddShares(rows, user, delta), other) == SharesOf(rows, other)
  {
    var after := AddShares(rows, user, delta);
    if rows == [] {
    } else if rows[0].user == user {
      assert after[1..] == rows[1..];
    } else {
      AddSharesEffect(rows[1..], user, delta);
      assert after[1..] == AddShares(rows[1..], user, delta);
    }
  }

  // ----- withdrawals

  predicate HasRow(t: Tables, id: nat) {
    id < |t.withdrawals|
  }

  function EnqueueWithdrawal(t: Tables, user: User, destination: Address, sharesBurned: real, feeShares: real,
                             queuedAt: int): Tables
  {
    t.(withdrawals := t.withdrawals +
         [Withdrawal(user, Queued, destination, sharesBurned, feeShares, queuedAt, None, None, None, None)])
  }

  /** UPDATE ... SET status='processing' WHERE id=? AND status='queued' */
  function SetProcessing(t: Tables, id: nat): Tables {
    if HasRow(t, id) && t.withdrawals[id].status.Queued?
    then t.(withdrawals := t.withdrawals[id := t.withdrawals[id].(status := Processing)])
    else t
  }

  /** UPDATE ... SET tx_sig=? WHERE id=? AND tx_sig IS NULL; throws unless exactly one row changed. */
  function MarkSent(t: Tables, id: nat, txSig: Sig): Option<Tables> {
    if HasRow(t, id) && t.withdrawals[id].txSig.None?
    then Some(t.(withdrawals := t.withdrawals[id := t.withdrawals[id].(txSig := Some(txSig))]))
    else None
  }

  /** A recorded signature is never overwritten, and recording one changes nothing else. */
  lemma {:induction false} SentIsRecordedOnce(t: Tables, id: nat, sig: Sig, other: Sig)
    ensures MarkSent(t, id, sig).Some? ==>
              var u := MarkSent(t, id, sig).value;
              && u == t.(withdrawals := u.withdrawals) && |u.withdrawals| == |t.withdrawals|
              && HasRow(t, id) && u.withdrawals[id].txSig == Some(sig)
              && t.withdrawals[id] == u.withdrawals[id].(txSig := None)
              && (forall j :: 0 <= j < |t.withdrawals| && j != id ==> u.withdrawals[j] == t.withdrawals[j])
              && MarkSent(u, id, other).None?
    ensures HasRow(t, id) && t.withdrawals[id].txSig.None? ==> MarkSent(t, id, sig).Some?
  {
  }

  /** No status check: the row is overwritten and its shares burned whatever its status. */
  function CompleteWithdrawal(t: Tables, id: nat, txSig: Sig, payout: Payout, processedAt: int): Option<Tables> {
    if !HasRow(t, id) then
      None
    else
      var w := t.withdrawals[id];
      Some(t.(withdrawals := t.withdrawals[id := w.(status := Completed, txSig := Some(txSig), payout := Some(payout),
                                                   processedAt := Some(processedAt))],
              shares := AddShares(t.shares, w.user, -w.sharesBurned)))
  }

  function FailWithdrawal(t: Tables, id: nat, reason: string, processedAt: int): Tables {
    if HasRow(t, id)
    then t.(withdrawals := t.withdrawals[id := t.withdrawals[id].(status := Failed, failureReason := Some(reason),
                                                                  processedAt := Some(processedAt))])
    else t
  }

  /** Throws for a missing row, a row that is not failed, and a row with a signature. */
  function RequeueFailed(t: Tables, id: nat): Option<Tables> {
    if HasRow(t, id) && t.withdrawals[id].status.Failed? && t.withdrawals[id].txSig.None?
    then Some(t.(withdrawals := t.withdrawals[id := t.withdrawals[id].(status := Queued, failureReason := None,
                                                                       processedAt := None)]))
    else None
  }

  /**
    An operator can requeue exactly the failed rows without a signature: one that was sent is never queued again. The
    row keeps its claim and looks as it did when it was first queued.
   */
  lemma {:induction false} RequeueEffect(t: Tables, id: nat)
    ensures RequeueFailed(t, id).Some? <==>
              HasRow(t, id) && t.withdrawals[id].status.Failed? && t.withdrawals[id].txSig.None?
    ensures RequeueFailed(t, id).Some? ==>
              var u, w := RequeueFailed(t, id).value, t.withdrawals[id];
              && u == t.(withdrawals := u.withdrawals) && |u.withdrawals| == |t.withdrawals|
              && (forall j :: 0 <= j < |t.withdrawals| && j != id ==> u.withdrawals[j] == t.withdrawals[j])
              && (w.payout.None? ==>
                    EnqueueWithdrawal(EMPTY, w.user, w.destination, w.sharesBurned, w.feeShares,
                                      w.queuedAt).withdrawals == [u.withdrawals[id]])
  {
  }

  /** Ids below `n` with the given status, in id order. */
  function IdsByStatus(ws: seq<Withdrawal>, status: Status, n: nat): seq<nat>
    requires n <= |ws|
  {
    if n == 0 then []
    else IdsByStatus(ws, status, n - 1) + (if ws[n - 1].status == status then [n - 1] else [])
  }

  lemma {:induction false} IdsByStatusExact(ws: seq<Withdrawal>, status: Status, n: nat)
    requires n <= |ws|
    ensures forall k :: 0 <= k < |IdsByStatus(ws, status, n)| ==>
              IdsByStatus(ws, status, n)[k] < n && ws[IdsByStatus(ws, status, n)[k]].status == status
    ensures forall j, k :: 0 <= j < k < |IdsByStatus(ws, status, n)| ==>
              IdsByStatus(ws, status, n)[j] < IdsByStatus(ws, status, n)[k]
    ensures forall id :: 0 <= id < n && ws[id].status == status ==> id in IdsByStatus(ws, status, n)
  {
    if n > 0 {
      IdsByStatusExact(ws, status, n - 1);
      var before := IdsByStatus(ws, status, n - 1);
      forall id | 0 <= id < n && ws[id].status == status
        ensures id in IdsByStatus(ws, status, n)
      {
        if id < n - 1 {
          assert id in before;
        }
      }
    }
  }

  /** Shares burned over completed rows. */
  function SumBurned(ws: seq<Withdrawal>): real {
    if ws == [] then 0.0
    else SumBurned(ws[..|ws| - 1]) + (if ws[|ws| - 1].status.Completed? then ws[|ws| - 1].sharesBurned else 0.0)
  }

  function BurnedBy(w: Withdrawal): real {
    if w.status.Completed? then w.sharesBurned else 0.0
  }

  lemma {:induction false} SumBurnedUpdate(ws: seq<Withdrawal>, id: nat, w: Withdrawal)
    requires id < |ws|
    ensures SumBurned(ws[id := w]) == SumBurned(ws) - BurnedBy(ws[id]) + BurnedBy(w)
  {
    var n := |ws| - 1;
    if id == n {
      assert ws[id := w][..n] == ws[..n];
    } else {
      SumBurnedUpdate(ws[..n], id, w);
      assert ws[id := w][..n] == ws[..n][id := w];
    }
  }

  lemma {:induction false} SumBurnedAppend(ws: seq<Withdrawal>, w: Withdrawal)
    ensures SumBurned(ws + [w]) == SumBurned(ws) + BurnedBy(w)
  {
  }

  /** Shares burned over the user's completed rows. */
  function BurnedFor(ws: seq<Withdrawal>, user: User): real {
    if ws == [] then 0.0
    else BurnedFor(ws[..|ws| - 1], user) + (if ws[|ws| - 1].user == user then BurnedBy(ws[|ws| - 1]) else 0.0)
  }

  function BurnedFrom(w: Withdrawal, user: User): real {
    if w.user == user then BurnedBy(w) else 0.0
  }

  lemma {:induction false} BurnedForUpdate(ws: seq<Withdrawal>, id: nat, w: Withdrawal, user: User)
    requires id < |ws|
    ensures BurnedFor(ws[id := w], user) == BurnedFor(ws, user) - BurnedFrom(ws[id], user) + BurnedFrom(w, user)
  {
    var n := |ws| - 1;
    if id == n {
      assert ws[id := w][..n] == ws[..n];
    } else {
      BurnedForUpdate(ws[..n], id, w, user);
      assert ws[id := w][..n] == ws[..n][id := w];
    }
  }

  lemma {:induction false} BurnedForAppend(ws: seq<Withdrawal>, w: Withdrawal, user: User)
    ensures BurnedFor(ws + [w], user) == BurnedFor(ws, user) + BurnedFrom(w, user)
  {
    assert (ws + [w])[..|ws|] == ws;
  }

  // ----- deposits

  predicate HasDeposit(t: Tables, inboundTxSig: Sig) {
    exists k :: 0 <= k < |t.deposits| && t.deposits[k].inboundTxSig == inboundTxSig
  }

  /** INSERT under UNIQUE(inbound_tx_sig), then the mint; throws (and rolls back) on a duplicate. */
  function CreditDeposit(t: Tables, d: Deposit): Option<Tables> {
    if HasDeposit(t, d.inboundTxSig) then None
    else Some(t.(deposits := t.deposits + [d], shares := AddShares(t.shares, d.user, d.sharesMinted)))
  }

  function SumMinted(ds: seq<Deposit>): real {
    if ds == [] then 0.0 else SumMinted(ds[..|ds| - 1]) + ds[|ds| - 1].sharesMinted
  }

  lemma {:induction false} SumMintedAppend(ds: seq<Deposit>, d: Deposit)
    ensures SumMinted(ds + [d]) == SumMinted(ds) + d.sharesMinted
  {
  }

  /** Shares minted over the user's deposits. */
  function MintedFor(ds: seq<Deposit>, user: User): real {
    if ds == [] then 0.0
    else MintedFor(ds[..|ds| - 1], user) + (if ds[|ds| - 1].user == user then ds[|ds| - 1].sharesMinted else 0.0)
  }

  lemma {:induction false} MintedForAppend(ds: seq<Deposit>, d: Deposit, user: User)
    ensures MintedFor(ds + [d], user) == MintedFor(ds, user) + if d.user == user then d.sharesMinted else 0.0
  {
    assert (ds + [d])[..|ds|] == ds;
  }

  // ----- NAV snapshots

  /** INSERT ... ON CONFLICT(ts) DO UPDATE */
  function Upsert(rows: seq<Snapshot>, s: Snapshot): seq<Snapshot> {
    if rows == [] then [s]
    else if rows[0].ts == s.ts then [s] + rows[1..]
    else [rows[0]] + Upsert(rows[1..], s)
  }

  /** ORDER BY ts DESC LIMIT 1 */
  function Latest(rows: seq<Snapshot>): Option<Snapshot> {
    if rows == [] then None
    else match Latest(rows[1..])
         case None => Some(rows[0])
         case Some(s) => if s.ts > rows[0].ts then Some(s) else Some(rows[0])
  }

  ghost predicate DistinctTs(rows: seq<Snapshot>) {
    forall i, j :: 0 <= i < j < |rows| ==> rows[i].ts != rows[j].ts
  }

  ghost predicate NotBefore(rows: seq<Snapshot>, ts: int) {
    forall i :: 0 <= i < |rows| ==> rows[i].ts <= ts
  }

  lemma {:induction false} LatestIsNewest(rows: seq<Snapshot>)
    ensures Latest(rows).None? <==> rows == []
    ensures rows != [] ==> Latest(rows).value in rows && NotBefore(rows, Latest(rows).value.ts)
  {
    if rows != [] {
      LatestIsNewest(rows[1..]);
    }
  }

  lemma {:induction false} LatestIff(rows: seq<Snapshot>, s: Snapshot)
    requires DistinctTs(rows) && s in rows
    ensures Latest(rows) == Some(s) <==> NotBefore(rows, s.ts)
  {
    LatestIsNewest(rows);
    var newest := Latest(rows).value;
    var i :| 0 <= i < |rows| && rows[i] == newest;
    var j :| 0 <= j < |rows| && rows[j] == s;
  }

  /** A write replaces the row with the same timestamp, or appends. */
  lemma {:induction false} UpsertShape(rows: seq<Snapshot>, s: Snapshot) returns (k: nat)
    ensures k <= |rows|
    ensures k < |rows| ==> rows[k].ts == s.ts && Upsert(rows, s) == rows[k := s]
    ensures k == |rows| ==> Upsert(rows, s) == rows + [s] && forall i :: 0 <= i < |rows| ==> rows[i].ts != s.ts
  {
    if rows == [] || rows[0].ts == s.ts {
      k := 0;
    } else {
      var j := UpsertShape(rows[1..], s);
      k := j + 1;
    }
  }

  /** The latest snapshot after a write is the one just written exactly when no stored one is newer. */
  lemma {:induction false} UpsertLatest(rows: seq<Snapshot>, s: Snapshot)
    requires DistinctTs(rows)
    ensures DistinctTs(Upsert(rows, s))
    ensures Latest(Upsert(rows, s)) == Some(s) <==> NotBefore(rows, s.ts)
  {
    var after := Upsert(rows, s);
    var k := UpsertShape(rows, s);
    assert after[k] == s;
    LatestIsNewest(after);
    var newest := Latest(after).value;
    var j :| 0 <= j < |after| && after[j] == newest;
    assert forall i :: 0 <= i < |after| && i != k ==> after[i] == rows[i];
    if NotBefore(rows, s.ts) {
      assert after[j].ts <= s.ts;
    }
    if newest == s {
      forall i | 0 <= i < |rows| ensures rows[i].ts <= s.ts {
        assert after[i].ts <= s.ts;
      }
    }
  }

  /** A write older than some stored snapshot leaves the latest one as it is. */
  lemma {:induction false} UpsertOlder(rows: seq<Snapshot>, s: Snapshot)
    requires DistinctTs(rows) && !NotBefore(rows, s.ts)
    ensures Latest(Upsert(rows, s)) == Latest(rows)
  {
    var after := Upsert(rows, s);
    var k := UpsertShape(rows, s);
    UpsertLatest(rows, s);
    LatestIsNewest(rows);
    hide Upsert, Latest;
    var newest := Latest(rows).value;
    var j :| 0 <= j < |rows| && rows[j] == newest;
    var i :| 0 <= i < |rows| && rows[i].ts > s.ts;
    assert after[k] == s && after[j] == newest;
    LatestIff(after, newest);
  }

  /** The value per share that credits use: the latest snapshot's value over the live shares (src/main.ts:306-313). */
  function SnapshotNav(t: Tables): real {
    var latest := Latest(t.snapshots);
    ComputeNavPerShare(if latest.Some? then latest.value.totalValueUsd else 0.0, TotalShares(t.shares))
  }

  function WriteAudit(t: Tables, row: AuditRow): Tables {
    t.(audit := t.audit + [row])
  }

  // ----- transactions

  datatype CreditParams = CreditParams(user: User, inboundTxSig: Sig, sweepTxSig: Sig, solLamports: nat, bertRaw: nat,
                                       mid: Mid, navPerShare: real, confirmedAt: int, sweptAt: int, now: int)

  function DepositUsd(p: CreditParams): real {
    p.solLamports as real / SOL_UNIT * p.mid.solUsd + p.bertRaw as real / BERT_UNIT * p.mid.bertUsd
  }

  function CreditSnapshot(p: CreditParams, total: real): Snapshot {
    Snapshot(p.now, total * p.navPerShare, total, p.navPerShare, DepositSource)
  }

  /** CreditEngine.credit (src/vault/creditEngine.ts:26-69); None when it throws. */
  function Credit(t: Tables, p: CreditParams): Option<Tables> {
    match ComputeSharesForDeposit(DepositUsd(p), p.navPerShare)
    case None => None
    case Some(minted) =>
      var d := Deposit(p.user, p.inboundTxSig, p.sweepTxSig, p.solLamports, p.bertRaw, p.mid, p.navPerShare, minted,
                       p.confirmedAt, p.sweptAt);
      match CreditDeposit(t, d)
      case None => None
      case Some(t1) =>
        var s := CreditSnapshot(p, TotalShares(t1.shares));
        Some(WriteAudit(t1.(snapshots := Upsert(t1.snapshots, s)),
                        AuditRow(p.now, p.user, DepositCredited(p.inboundTxSig, DepositUsd(p), minted, p.navPerShare))))
  }

  /** What a credit did: the depositor, and nobody else, holds the deposit's USD value over the NAV more. */
  lemma {:induction false} CreditEffect(t: Tables, p: CreditParams)
    ensures Credit(t, p).Some? <==> p.navPerShare > 0.0 && !HasDeposit(t, p.inboundTxSig)
    ensures Credit(t, p).Some? ==>
              var t1 := Credit(t, p).value;
              && |t1.deposits| == |t.deposits| + 1 && t1.deposits[..|t.deposits|] == t.deposits
              && TotalShares(t1.shares) == TotalShares(t.shares) + DepositUsd(p) / p.navPerShare
              && SumMinted(t1.deposits) == SumMinted(t.deposits) + DepositUsd(p) / p.navPerShare
              && SharesOf(t1.shares, p.user) == SharesOf(t.shares, p.user) + DepositUsd(p) / p.navPerShare
              && (forall other :: other != p.user ==> SharesOf(t1.shares, other) == SharesOf(t.shares, other))
              && (forall user :: MintedFor(t1.deposits, user) ==
                    MintedFor(t.deposits, user) + if user == p.user then DepositUsd(p) / p.navPerShare else 0.0)
              && t1.withdrawals == t.withdrawals
  {
    if Credit(t, p).Some? {
      var minted := DepositUsd(p) / p.navPerShare;
      AddSharesEffect(t.shares, p.user, minted);
      var d := Credit(t, p).value.deposits[|t.deposits|];
      SumMintedAppend(t.deposits, d);
      hide AddShares, Upsert, TotalShares, SharesOf, SumMinted, MintedFor;
      forall user ensures MintedFor(t.deposits + [d], user) ==
                            MintedFor(t.deposits, user) + if user == p.user then minted else 0.0 {
        MintedForAppend(t.deposits, d, user);
      }
    }
  }

  /** A deposit's USD value is the worth of its tokens at the mid price. */
  lemma {:induction false} DepositUsdIsWorth(p: CreditParams)
    ensures DepositUsd(p) == Worth(Tokens(p.solLamports, p.bertRaw), p.mid)
  {
  }

  /**
    In a nonempty pool a credit at the snapshot value per share raises the latest snapshot's value by exactly the
    deposit's USD value and leaves the value per share unchanged, if its timestamp does not go back.
   */
  lemma {:induction false} CreditKeepsNav(t: Tables, p: CreditParams)
    requires DistinctTs(t.snapshots) && Latest(t.snapshots).Some? && TotalShares(t.shares) > 0.0
    requires p.navPerShare == SnapshotNav(t) && NotBefore(t.snapshots, p.now)
    requires Credit(t, p).Some? && DepositUsd(p) >= 0.0
    ensures var t1 := Credit(t, p).value;
            && Latest(t1.snapshots).Some?
            && Latest(t1.snapshots).value.totalValueUsd == Latest(t.snapshots).value.totalValueUsd + DepositUsd(p)
            && Latest(t1.snapshots).value.totalShares == TotalShares(t1.shares)
            && Latest(t1.snapshots).value.navPerShare == p.navPerShare && Latest(t1.snapshots).value.ts == p.now
            && Latest(t1.snapshots).value.source.DepositSource?
            && SnapshotNav(t1) == SnapshotNav(t)
  {
    CreditEffect(t, p);
    var t1 := Credit(t, p).value;
    var s := CreditSnapshot(p, TotalShares(t1.shares));
    UpsertLatest(t.snapshots, s);
    assert t1.snapshots == Upsert(t.snapshots, s);
    MintAtNav(Latest(t.snapshots).value.totalValueUsd, TotalShares(t.shares), DepositUsd(p), p.navPerShare);
  }

  lemma {:induction false} MintAtNav(v: real, t: real, d: real, nav: real)
    requires 0.0 < t && nav == v / t && 0.0 < nav && 0.0 <= d
    ensures 0.0 < t + d / nav
    ensures (t + d / nav) * nav == v + d
    ensures ((t + d / nav) * nav) / (t + d / nav) == nav
  {
  }

  /** Only the net shares' worth leaves the pool; the fee stays with the remaining holders. */
  function WithdrawalSnapshot(w: Withdrawal, before: real, after: real, navPerShare: real, now: int): Snapshot {
    Snapshot(now, (before - (w.sharesBurned - w.feeShares)) * navPerShare, after, navPerShare, WithdrawalSource)
  }

  /** The transaction at the end of processOne (src/vault/withdrawalExecutor.ts:180-207); None when it throws. */
  function Settle(t: Tables, id: nat, txSig: Sig, q: Quote, now: int): Option<Tables> {
    match CompleteWithdrawal(t, id, txSig, Payout(q.need, q.navPerShare), now)
    case None => None
    case Some(t1) =>
      var w := t.withdrawals[id];
      var s := WithdrawalSnapshot(w, TotalShares(t.shares), TotalShares(t1.shares), q.navPerShare, now);
      Some(WriteAudit(t1.(snapshots := Upsert(t1.snapshots, s)),
                      AuditRow(now, w.user, WithdrawalCompleted(id, txSig, w.sharesBurned, w.feeShares, q.usdOwed,
                                                                q.navPerShare))))
  }

  /** runBootstrap (src/cli/vault-bootstrap.ts:40-64) on an empty vault: one share per dollar. */
  function Bootstrapped(operator: User, initialNavUsd: real, now: int): Tables {
    Tables([ShareRow(operator, initialNavUsd)], [], [],
           [Snapshot(now, initialNavUsd, initialNavUsd, 1.0, BootstrapSource)],
           [AuditRow(now, operator, Event.Bootstrap)])
  }
}
