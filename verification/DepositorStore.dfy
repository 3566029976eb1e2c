/**
  The store object (src/vault/depositorStore.ts) and the credit engine (src/vault/creditEngine.ts): each method updates
  the tables in place exactly as the corresponding operation of `Ledger` says, and throws (ok = false) without a trace.
 */
module DepositorStore {
  import opened Prelude
  import opened ShareMath
  import opened L = Ledger

  class Store {
    var shares: seq<ShareRow>
    var deposits: seq<Deposit>
    var withdrawals: seq<Withdrawal>
    var snapshots: seq<Snapshot>
    var audit: seq<AuditRow>

    function Contents(): Tables
      reads this
    {
      Tables(shares, deposits, withdrawals, snapshots, audit)
    }

    constructor ()
      ensures Contents() == L.EMPTY
    {
      shares, deposits, withdrawals, snapshots, audit := [], [], [], [], [];
    }

    // ----- shares

    /** Position of the user's row, or the table's length. */
    method FindShares(user: User) returns (i: nat)
      ensures i <= |shares|
      ensures forall j :: 0 <= j < i ==> shares[j].user != user
      ensures i < |shares| ==> shares[i].user == user
    {
      i := 0;
      while i < |shares| && shares[i].user != user
        invariant i <= |shares|
        invariant forall j :: 0 <= j < i ==> shares[j].user != user
      {
        i := i + 1;
      }
    }

    method GetShares(user: User) returns (n: real)
      ensures n == SharesOf(shares, user)
    {
      var i := FindShares(user);
      FoundShares(shares, user, i, 0.0);
      n := if i < |shares| then shares[i].shares else 0.0;
    }

    method AddShares(user: User, delta: real)
      modifies this`shares
      ensures shares == L.AddShares(old(shares), user, delta)
    {
      var i := FindShares(user);
      FoundShares(shares, user, i, delta);
      if i < |shares| {
        shares := shares[i := ShareRow(user, shares[i].shares + delta)];
      } else {
        shares := shares + [ShareRow(user, delta)];
      }
    }

    method TotalShares() returns (total: real)
      ensures total == L.TotalShares(shares)
    {
      total := 0.0;
      for i := |shares| downto 0
        invariant total == L.TotalShares(shares[i..])
      {
        total := shares[i].shares + total;
        assert shares[i..][1..] == shares[i + 1..];
      }
      assert shares[0..] == shares;
    }

    // ----- withdrawals

    method EnqueueWithdrawal(user: User, destination: Address, sharesBurned: real, feeShares: real, queuedAt: int)
      returns (id: nat)
      modifies this`withdrawals
      ensures id == old(|withdrawals|)
      ensures Contents() == L.EnqueueWithdrawal(old(Contents()), user, destination, sharesBurned, feeShares, queuedAt)
    {
      id := |withdrawals|;
      withdrawals := withdrawals +
        [Withdrawal(user, Queued, destination, sharesBurned, feeShares, queuedAt, None, None, None, None)];
    }

    method SetWithdrawalProcessing(id: nat)
      modifies this`withdrawals
      ensures Contents() == SetProcessing(old(Contents()), id)
    {
      if id < |withdrawals| && withdrawals[id].status.Queued? {
        withdrawals := withdrawals[id := withdrawals[id].(status := Processing)];
      }
    }

    method MarkWithdrawalSent(id: nat, txSig: Sig) returns (ok: bool)
      modifies this`withdrawals
      ensures ok == MarkSent(old(Contents()), id, txSig).Some?
      ensures Contents() == if ok then MarkSent(old(Contents()), id, txSig).value else old(Contents())
    {
      ok := id < |withdrawals| && withdrawals[id].txSig.None?;
      if ok {
        withdrawals := withdrawals[id := withdrawals[id].(txSig := Some(txSig))];
      }
    }

    method CompleteWithdrawal(id: nat, txSig: Sig, payout: Payout, processedAt: int) returns (ok: bool)
      modifies this`withdrawals, this`shares
      ensures ok == L.CompleteWithdrawal(old(Contents()), id, txSig, payout, processedAt).Some?
      ensures Contents() == if ok then L.CompleteWithdrawal(old(Contents()), id, txSig, payout, processedAt).value
                            else old(Contents())
    {
      ok := id < |withdrawals|;
      if ok {
        var w := withdrawals[id];
        withdrawals := withdrawals[id := w.(status := Completed, txSig := Some(txSig), payout := Some(payout),
                                            processedAt := Some(processedAt))];
        AddShares(w.user, -w.sharesBurned);
      }
    }

    method FailWithdrawal(id: nat, reason: string, processedAt: int)
      modifies this`withdrawals
      ensures Contents() == L.FailWithdrawal(old(Contents()), id, reason, processedAt)
    {
      if id < |withdrawals| {
        withdrawals := withdrawals[id := withdrawals[id].(status := Failed, failureReason := Some(reason),
                                                          processedAt := Some(processedAt))];
      }
    }

    method RequeueFailedWithdrawal(id: nat) returns (ok: bool)
      modifies this`withdrawals
      ensures ok == RequeueFailed(old(Contents()), id).Some?
      ensures Contents() == if ok then RequeueFailed(old(Contents()), id).value else old(Contents())
    {
      ok := id < |withdrawals| && withdrawals[id].status.Failed? && withdrawals[id].txSig.None?;
      if ok {
        withdrawals := withdrawals[id := withdrawals[id].(status := Queued, failureReason := None,
                                                          processedAt := None)];
      }
    }

    method ListWithdrawalsByStatus(status: Status) returns (ids: seq<nat>)
      ensures ids == IdsByStatus(withdrawals, status, |withdrawals|)
    {
      ids := [];
      for i := 0 to |withdrawals|
        invariant ids == IdsByStatus(withdrawals, status, i)
      {
        if withdrawals[i].status == status {
          ids := ids + [i];
        }
      }
    }

    // ----- deposits

    method HasDeposit(inboundTxSig: Sig) returns (found: bool)
      ensures found == L.HasDeposit(Contents(), inboundTxSig)
    {
      found := false;
      for i := 0 to |deposits|
        invariant found == exists k :: 0 <= k < i && deposits[k].inboundTxSig == inboundTxSig
      {
        if deposits[i].inboundTxSig == inboundTxSig {
          found := true;
        }
      }
    }

    method CreditDeposit(d: Deposit) returns (ok: bool)
      modifies this`deposits, this`shares
      ensures ok == L.CreditDeposit(old(Contents()), d).Some?
      ensures Contents() == if ok then L.CreditDeposit(old(Contents()), d).value else old(Contents())
    {
      var duplicate := HasDeposit(d.inboundTxSig);
      ok := !duplicate;
      if ok {
        deposits := deposits + [d];
        AddShares(d.user, d.sharesMinted);
      }
    }

    // ----- NAV snapshots

    method InsertNavSnapshot(s: Snapshot)
      modifies this`snapshots
      ensures snapshots == Upsert(old(snapshots), s)
    {
      var i := 0;
      while i < |snapshots| && snapshots[i].ts != s.ts
        invariant i <= |snapshots|
        invariant forall j :: 0 <= j < i ==> snapshots[j].ts != s.ts
      {
        i := i + 1;
      }
      UpsertAt(snapshots, s, i);
      snapshots := if i < |snapshots| then snapshots[i := s] else snapshots + [s];
    }

    method LatestNavSnapshot() returns (latest: Option<Snapshot>)
      ensures latest == Latest(snapshots)
    {
      latest := None;
      for i := |snapshots| downto 0
        invariant latest == Latest(snapshots[i..])
      {
        assert snapshots[i..][1..] == snapshots[i + 1..];
        if latest.None? || latest.value.ts <= snapshots[i].ts {
          latest := Some(snapshots[i]);
        }
      }
      assert snapshots[0..] == snapshots;
    }

    method WriteAudit(row: AuditRow)
      modifies this`audit
      ensures Contents() == L.WriteAudit(old(Contents()), row)
    {
      audit := audit + [row];
    }

    // ----- transactions

    /** The transaction that ends processOne; a fault rolls all of it back. */
    method SettleWithdrawal(id: nat, txSig: Sig, q: Quote, now: int, fault: bool) returns (ok: bool)
      modifies this
      ensures ok == (!fault && Settle(old(Contents()), id, txSig, q, now).Some?)
      ensures Contents() == if ok then Settle(old(Contents()), id, txSig, q, now).value else old(Contents())
    {
      ok := !fault && id < |withdrawals|;
      if ok {
        var before := TotalShares();
        var w := withdrawals[id];
        var _ := CompleteWithdrawal(id, txSig, Payout(q.need, q.navPerShare), now);
        var after := TotalShares();
        InsertNavSnapshot(WithdrawalSnapshot(w, before, after, q.navPerShare, now));
        WriteAudit(AuditRow(now, w.user,
                            WithdrawalCompleted(id, txSig, w.sharesBurned, w.feeShares, q.usdOwed, q.navPerShare)));
      }
    }

    /** CreditEngine.credit */
    method Credit(p: CreditParams) returns (ok: bool)
      modifies this
      ensures ok == L.Credit(old(Contents()), p).Some?
      ensures Contents() == if ok then L.Credit(old(Contents()), p).value else old(Contents())
    {
      var depositUsd := DepositUsd(p);
      var minted := ComputeSharesForDeposit(depositUsd, p.navPerShare);
      if minted.None? {
        return false;
      }
      ok := CreditDeposit(Deposit(p.user, p.inboundTxSig, p.sweepTxSig, p.solLamports, p.bertRaw, p.mid, p.navPerShare,
                                  minted.value, p.confirmedAt, p.sweptAt));
      if ok {
        var total := TotalShares();
        InsertNavSnapshot(CreditSnapshot(p, total));
        WriteAudit(AuditRow(p.now, p.user, DepositCredited(p.inboundTxSig, depositUsd, minted.value, p.navPerShare)));
      }
    }

    /** getNavPerShare (src/main.ts:306-313): the latest snapshot's value over the live shares. */
    method GetNavPerShare() returns (nav: real)
      ensures nav == SnapshotNav(Contents())
    {
      var snap := LatestNavSnapshot();
      var total := TotalShares();
      nav := ComputeNavPerShare(if snap.Some? then snap.value.totalValueUsd else 0.0, total);
    }

    /** runBootstrap (src/cli/vault-bootstrap.ts:33-72): refuses a vault that already has users. */
    method RunBootstrap(hasUsers: bool, operator: User, initialNavUsd: real, now: int) returns (ok: bool)
      requires !hasUsers ==> Contents() == L.EMPTY
      modifies this
      ensures ok == !hasUsers
      ensures Contents() == if ok then Bootstrapped(operator, initialNavUsd, now) else old(Contents())
    {
      ok := !hasUsers;
      if ok {
        AddShares(operator, initialNavUsd);
        InsertNavSnapshot(Snapshot(now, initialNavUsd, initialNavUsd, 1.0, BootstrapSource));
        WriteAudit(AuditRow(now, operator, Event.Bootstrap));
      }
    }
  }

  lemma {:induction false} FoundShares(rows: seq<ShareRow>, user: User, i: nat, delta: real)
    requires i <= |rows| && (forall j :: 0 <= j < i ==> rows[j].user != user) && (i < |rows| ==> rows[i].user == user)
    ensures SharesOf(rows, user) == if i < |rows| then rows[i].shares else 0.0
    ensures L.AddShares(rows, user, delta) ==
              if i < |rows| then rows[i := ShareRow(user, rows[i].shares + delta)] else rows + [ShareRow(user, delta)]
  {
    if i > 0 {
      FoundShares(rows[1..], user, i - 1, delta);
    }
  }

  lemma {:induction false} UpsertAt(rows: seq<Snapshot>, s: Snapshot, i: nat)
    requires i <= |rows| && (forall j :: 0 <= j < i ==> rows[j].ts != s.ts) && (i < |rows| ==> rows[i].ts == s.ts)
    ensures Upsert(rows, s) == if i < |rows| then rows[i := s] else rows + [s]
  {
    if i > 0 {
      UpsertAt(rows[1..], s, i - 1);
    }
  }
}
