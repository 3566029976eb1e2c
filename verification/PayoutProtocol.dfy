/**
  The payout protocol (src/vault/withdrawalExecutor.ts) as a transition system over the vault's tables, the
  whitelist, the withdraw handler that may be waiting on a NAV read, and the chain.

  The drain is broken at every await and every database write, so handlers and the process itself may do anything
  in between: rows are queued, failed rows requeued, deposits credited, whitelist changes applied, or the process dies.
 */
module PayoutProtocol {
  import opened Prelude
  import opened ShareMath
  import opened Ledger
  import Whitelist

  datatype Config = Config(
    reserve: nat,
    cooldownMs: int,
    /** Whether the audit write inside the handler of a failed mark-sent may itself throw. */
    handlerAuditMayThrow: bool)

  /** What a row's quote is computed from: prices, the balances and position value read, and the live shares then. */
  datatype Basis = Basis(mid: Mid, bal: Balances, positionUsd: real, totalShares: real)

  /** A landed transfer: what it paid, on which quote, and the balances read last before it. */
  datatype Transfer = Transfer(id: nat, destination: Address, sig: Sig, quote: Quote, basis: Basis, read: Balances)

  /** Where in processOne the drain stands. */
  datatype Pc =
    | NextRow
    | Taken(id: nat, now: int)
    | Priced(id: nat, now: int, mid: Mid)
    | Short(id: nat, now: int, basis: Basis, quote: Quote)
    | Freed(id: nat, now: int, basis: Basis, quote: Quote)
    | Ready(id: nat, now: int, basis: Basis, quote: Quote, read: Balances)
    | Sent(id: nat, now: int, quote: Quote, sig: Sig)
    | Marked(id: nat, now: int, quote: Quote, sig: Sig)
    | Raised(id: nat)

  datatype Drain = Idle | Draining(todo: seq<nat>, pc: Pc)

  /** The withdraw handler between reading the user's address and queueing (src/vault/commands.ts:815-851). */
  datatype Request = Request(user: User, address: Address, readAt: nat)

  datatype Vault = Vault(
    tables: Tables, whitelist: Whitelist.State, request: Option<Request>, drain: Drain,
    // logs that only the statements below read; a row's origin is the length of the activation log when its address
    // was read
    chain: seq<Transfer>, origins: seq<nat>, burns: seq<nat>, operator: User, boot: real,
    lastSnapshot: Snapshot, ordered: bool)

  datatype Step =
    // handlers and the rest of the bot
    | WhitelistMove(move: Whitelist.Move)
    | ReadAddress(user: User)
    | DropRequest
    | QueueWithdrawal(sharesBurned: real, feeShares: real, at: int)
    | Requeue(id: nat, operator: User, at: int)
    | CreditDeposit(params: CreditParams)
    | Crash
    // the drain
    | BeginDrain
    | TakeRow(now: int)
    | EndDrain
    | OracleAnswers(mid: Option<Mid>)
    | BalancesAnswer(bal: Balances, positionUsd: real)
    | PartialCloseReturns
    | RereadAnswers(bal: Balances)
    | TransferLands(sig: Sig)
    | TransferThrows(reason: string)
    | MarkSentSucceeds
    | MarkSentFaults
    | MarkSentFaultsUnaudited
    | SettleSucceeds
    | SettleFaults
    | CallThrows
    | CatchHandles(at: int)
    | CatchFaults

  function NoteSnapshot(v: Vault, t: Tables, s: Snapshot): Vault {
    var latest := Latest(v.tables.snapshots);
    v.(tables := t, lastSnapshot := s, ordered := v.ordered && (latest.None? || latest.value.ts <= s.ts))
  }

  function At(v: Vault, pc: Pc): Vault
    requires v.drain.Draining?
  {
    v.(drain := Draining(v.drain.todo, pc))
  }

  function FailRow(v: Vault, id: nat, reason: string, at: int): Vault
    requires v.drain.Draining?
  {
    At(v.(tables := FailWithdrawal(v.tables, id, reason, at)), NextRow)
  }

  function AuditSync(v: Vault, id: nat, sig: Sig, now: int): Vault {
    v.(tables := WriteAudit(v.tables, AuditRow(now, if HasRow(v.tables, id) then v.tables.withdrawals[id].user else 0,
                                               WithdrawalDbSyncFailed(id, sig))))
  }

  function HandlerStep(c: Config, v: Vault, e: Step): Option<Vault> {
    match e
    case WhitelistMove(m) =>
      var w := Whitelist.Step(v.whitelist, m, c.cooldownMs);
      if w.Some? then Some(v.(whitelist := w.value)) else None
    case ReadAddress(u) =>
      // one handler at a time; a user without an address is refused
      if v.request.None? && u in v.whitelist.active
      then Some(v.(request := Some(Request(u, v.whitelist.active[u], |v.whitelist.history|)))) else None
    case DropRequest => Some(v.(request := None))
    case QueueWithdrawal(burned, fee, at) =>
      if v.request.None? then None else
        var r := v.request.value;
        Some(v.(tables := EnqueueWithdrawal(v.tables, r.user, r.address, burned, fee, at),
                origins := v.origins + [r.readAt], request := None))
    case Requeue(id, operator, at) =>
      (match RequeueFailed(v.tables, id)
       case None => None
       case Some(t) => Some(v.(tables := WriteAudit(t, AuditRow(at, operator, WithdrawalRequeued(id))))))
    case CreditDeposit(p) =>
      (match Credit(v.tables, p)
       case None => None
       case Some(t) => Some(NoteSnapshot(v, t, CreditSnapshot(p, TotalShares(t.shares)))))
    case Crash => Some(v.(request := None, drain := Idle))
    case _ => None
  }

  function SettleSnapshot(before: Tables, after: Tables, id: nat, q: Quote, now: int): Snapshot
    requires HasRow(before, id)
  {
    WithdrawalSnapshot(before.withdrawals[id], TotalShares(before.shares), TotalShares(after.shares), q.navPerShare,
                       now)
  }

  /** One step of drain/processOne, by where it stands. */
  function DrainStep(c: Config, v: Vault, e: Step): Option<Vault> {
    match v.drain
    case Idle =>
      if e.BeginDrain?
      then Some(v.(drain := Draining(IdsByStatus(v.tables.withdrawals, Queued, |v.tables.withdrawals|), NextRow)))
      else None
    case Draining(todo, pc) =>
      match (pc, e)
      case (NextRow, EndDrain) => if todo == [] then Some(v.(drain := Idle)) else None
      case (NextRow, TakeRow(now)) =>
        if todo == [] then None
        else Some(v.(tables := SetProcessing(v.tables, todo[0]), drain := Draining(todo[1..], Taken(todo[0], now))))
      case (Taken(id, now), OracleAnswers(None)) => Some(FailRow(v, id, "oracle_unavailable", now))
      case (Taken(id, now), OracleAnswers(Some(mid))) =>
        // the row is looked up among the processing ones
        if HasRow(v.tables, id) && v.tables.withdrawals[id].status.Processing?
        then Some(At(v, Priced(id, now, mid))) else Some(At(v, NextRow))
      case (Priced(id, now, mid), BalancesAnswer(bal, positionUsd)) =>
        if !HasRow(v.tables, id) then None else
          var w := v.tables.withdrawals[id];
          var basis := Basis(mid, bal, positionUsd, TotalShares(v.tables.shares));
          (match MakeQuote(mid, bal, c.reserve, positionUsd, basis.totalShares, w.sharesBurned - w.feeShares)
           case None => Some(At(v, Raised(id)))
           case Some(q) =>
             Some(At(v, if Covers(bal, c.reserve, q.need) then Ready(id, now, basis, q, bal)
                     else Short(id, now, basis, q))))
      case (Short(id, now, basis, q), PartialCloseReturns) => Some(At(v, Freed(id, now, basis, q)))
      case (Freed(id, now, basis, q), RereadAnswers(bal)) =>
        if Covers(bal, c.reserve, q.need) then Some(At(v, Ready(id, now, basis, q, bal)))
        else Some(FailRow(v, id, "reserves_insufficient", now))
      case (Ready(id, now, basis, q, read), TransferLands(sig)) =>
        if !HasRow(v.tables, id) then None else
          Some(At(v.(chain := v.chain + [Transfer(id, v.tables.withdrawals[id].destination, sig, q, basis, read)]),
                  Sent(id, now, q, sig)))
      case (Ready(id, now, _, q, read), TransferThrows(reason)) =>
        if !HasRow(v.tables, id) then None else
          var f := FailRow(v, id, reason, now);
          Some(f.(tables := WriteAudit(f.tables, AuditRow(now, v.tables.withdrawals[id].user, WithdrawalFailed(id)))))
      case (Sent(id, now, q, sig), MarkSentSucceeds) =>
        (match MarkSent(v.tables, id, sig)
         case None => None
         case Some(t) => Some(At(v.(tables := t), Marked(id, now, q, sig))))
      case (Sent(id, now, q, sig), MarkSentFaults) => Some(At(AuditSync(v, id, sig, now), NextRow))
      case (Sent(id, now, q, sig), MarkSentFaultsUnaudited) =>
        if c.handlerAuditMayThrow then Some(At(v, Raised(id))) else None
      case (Marked(id, now, q, sig), SettleSucceeds) =>
        (match Settle(v.tables, id, sig, q, now)
         case None => None
         case Some(t) =>
           Some(At(NoteSnapshot(v.(burns := v.burns + [id]), t, SettleSnapshot(v.tables, t, id, q, now)), NextRow)))
      case (Marked(id, now, q, sig), SettleFaults) => Some(At(AuditSync(v, id, sig, now), Raised(id)))
      case (Raised(id), CatchHandles(at)) =>
        if HasRow(v.tables, id) && v.tables.withdrawals[id].txSig.Some?
        then Some(At(v, NextRow)) else Some(FailRow(v, id, "unexpected", at))
      case (Raised(id), CatchFaults) => Some(v.(drain := Idle))
      // an awaited call, or a database write in front of the transfer, throws
      case (Taken(id, _), CallThrows) => Some(At(v, Raised(id)))
      case (Priced(id, _, _), CallThrows) => Some(At(v, Raised(id)))
      case (Short(id, _, _, _), CallThrows) => Some(At(v, Raised(id)))
      case (Freed(id, _, _, _), CallThrows) => Some(At(v, Raised(id)))
      case (Ready(id, _, _, _, _), CallThrows) => Some(At(v, Raised(id)))
      case _ => None
  }

  function Next(c: Config, v: Vault, e: Step): Option<Vault> {
    var h := HandlerStep(c, v, e);
    if h.Some? then h else DrainStep(c, v, e)
  }

  /** A run: steps that are not enabled are skipped. */
  function Run(c: Config, v: Vault, es: seq<Step>): Vault {
    if es == [] then v
    else
      var before := Run(c, v, es[..|es| - 1]);
      var n := Next(c, before, es[|es| - 1]);
      if n.Some? then n.value else before
  }

  /** The clock read a step carries. */
  function ClockOf(e: Step): Option<int> {
    match e
    case WhitelistMove(Request(_, _, now)) => Some(now)
    case WhitelistMove(Activate(now)) => Some(now)
    case QueueWithdrawal(_, _, at) => Some(at)
    case Requeue(_, _, at) => Some(at)
    case CreditDeposit(p) => Some(p.now)
    case TakeRow(now) => Some(now)
    case CatchHandles(at) => Some(at)
    case _ => None
  }

  /** The clock never goes back: the reads of the steps lie between `from` and `to` and never decrease. */
  ghost predicate ClockForward(es: seq<Step>, from: int, to: int) {
    && from <= to
    && (forall i :: 0 <= i < |es| && ClockOf(es[i]).Some? ==> from <= ClockOf(es[i]).value <= to)
    && (forall i, j :: 0 <= i < j < |es| && ClockOf(es[i]).Some? && ClockOf(es[j]).Some? ==>
        ClockOf(es[i]).value <= ClockOf(es[j]).value)
  }

  /** A freshly bootstrapped vault. */
  function Start(operator: User, initialNavUsd: real, now: int): Vault {
    Vault(Bootstrapped(operator, initialNavUsd, now), Whitelist.EMPTY, None, Idle, [], [], [], operator, initialNavUsd,
          Snapshot(now, initialNavUsd, initialNavUsd, 1.0, BootstrapSource), true)
  }

  // ----- invariants

  ghost predicate Paid(chain: seq<Transfer>, id: nat) {
    exists k :: 0 <= k < |chain| && chain[k].id == id
  }

  ghost predicate PaidWith(chain: seq<Transfer>, id: nat, sig: Sig) {
    exists k :: 0 <= k < |chain| && chain[k].id == id && chain[k].sig == sig
  }

  /** Queued and failed rows carry no signature and were never paid; a signature is that of the row's transfer. */
  ghost predicate RowOk(w: Withdrawal, id: nat, chain: seq<Transfer>) {
    && (w.status.Queued? || w.status.Failed? ==> w.txSig.None? && !Paid(chain, id))
    && (w.status.Completed? ==> w.txSig.Some?)
    && (w.txSig.Some? ==> PaidWith(chain, id, w.txSig.value))
  }

  ghost predicate RowsOk(v: Vault) {
    forall id :: 0 <= id < |v.tables.withdrawals| ==> RowOk(v.tables.withdrawals[id], id, v.chain)
  }

  /** No two transfers are for the same row. */
  ghost predicate PaidOnce(chain: seq<Transfer>) {
    forall j, k :: 0 <= j < k < |chain| ==> chain[j].id != chain[k].id
  }

  ghost predicate TransferOk(c: Config, t: Transfer, ws: seq<Withdrawal>) {
    && t.id < |ws| && t.destination == ws[t.id].destination
    && Covers(t.read, c.reserve, t.quote.need)
    && PaysWithinDust(t.quote.need, t.quote.usdOwed, t.basis.mid)
  }

  ghost predicate ChainOk(c: Config, v: Vault) {
    && PaidOnce(v.chain)
    && forall k :: 0 <= k < |v.chain| ==> TransferOk(c, v.chain[k], v.tables.withdrawals)
  }

  /** The row in hand has not been paid. */
  ghost predicate Unpaid(v: Vault, id: nat) {
    HasRow(v.tables, id) && v.tables.withdrawals[id].status.Processing? && v.tables.withdrawals[id].txSig.None?
      && !Paid(v.chain, id)
  }

  ghost predicate PcOk(c: Config, v: Vault, pc: Pc) {
    match pc
    case NextRow => true
    case Taken(id, _) => Unpaid(v, id)
    case Priced(id, now, mid) => Unpaid(v, id)
    case Short(id, now, basis, q) => Unpaid(v, id) && PaysWithinDust(q.need, q.usdOwed, basis.mid)
    case Freed(id, now, basis, q) => Unpaid(v, id) && PaysWithinDust(q.need, q.usdOwed, basis.mid)
    case Ready(id, now, basis, q, read) =>
      Unpaid(v, id) && PaysWithinDust(q.need, q.usdOwed, basis.mid) && Covers(read, c.reserve, q.need)
    case Sent(id, now, q, sig) =>
      && HasRow(v.tables, id) && v.tables.withdrawals[id].status.Processing? && v.tables.withdrawals[id].txSig.None?
      && PaidWith(v.chain, id, sig)
    case Marked(id, now, q, sig) =>
      && HasRow(v.tables, id) && v.tables.withdrawals[id].status.Processing?
         && v.tables.withdrawals[id].txSig == Some(sig)
    case Raised(id) =>
      && HasRow(v.tables, id) && v.tables.withdrawals[id].status.Processing?
      && (v.tables.withdrawals[id].txSig.None? ==> !Paid(v.chain, id))
  }

  ghost predicate DrainOk(c: Config, v: Vault) {
    v.drain.Draining? ==>
      && PcOk(c, v, v.drain.pc)
      && (forall k :: 0 <= k < |v.drain.todo| ==>
            HasRow(v.tables, v.drain.todo[k]) && v.tables.withdrawals[v.drain.todo[k]].status.Queued?)
      && (forall j, k :: 0 <= j < k < |v.drain.todo| ==> v.drain.todo[j] != v.drain.todo[k])
  }

  /**
    Shares, in total and of each user: bootstrap plus minted minus burned, and a row is in the burn log once, exactly
    when it is completed.
   */
  ghost predicate SharesOk(v: Vault) {
    SharesBalance(v) && UsersBalance(v) && BurnsOk(v)
  }

  ghost predicate UsersBalance(v: Vault) {
    forall u: User :: SharesOf(v.tables.shares, u) ==
      (if u == v.operator then v.boot else 0.0) + MintedFor(v.tables.deposits, u) - BurnedFor(v.tables.withdrawals, u)
  }

  ghost predicate SharesBalance(v: Vault) {
    TotalShares(v.tables.shares) == v.boot + SumMinted(v.tables.deposits) - SumBurned(v.tables.withdrawals)
  }

  ghost predicate BurnsOk(v: Vault) {
    && (forall j, k :: 0 <= j < k < |v.burns| ==> v.burns[j] != v.burns[k])
    && (forall k :: 0 <= k < |v.burns| ==>
          HasRow(v.tables, v.burns[k]) && v.tables.withdrawals[v.burns[k]].status.Completed?)
    && (forall id :: 0 <= id < |v.tables.withdrawals| && v.tables.withdrawals[id].status.Completed? ==> id in v.burns)
  }

  /** Snapshots: the last one written holds the live total, and is the latest as long as timestamps never went back. */
  ghost predicate SnapshotsOk(v: Vault) {
    && DistinctTs(v.tables.snapshots) && v.lastSnapshot in v.tables.snapshots
    && v.lastSnapshot.totalShares == TotalShares(v.tables.shares)
    && (v.ordered ==> Latest(v.tables.snapshots) == Some(v.lastSnapshot))
  }

  /** Every row's destination was its user's active address when the handler read it. */
  ghost predicate DestinationsOk(c: Config, v: Vault) {
    && Whitelist.Inv(v.whitelist, c.cooldownMs)
    && |v.origins| == |v.tables.withdrawals|
    && (forall id :: 0 <= id < |v.origins| ==> OriginOk(v, id))
    && (v.request.Some? ==>
          && v.request.value.readAt <= |v.whitelist.history|
          && Whitelist.ActiveAt(v.whitelist.history[..v.request.value.readAt], v.request.value.user)
             == Some(v.request.value.address))
  }

  ghost predicate OriginOk(v: Vault, id: nat)
    requires id < |v.origins| == |v.tables.withdrawals|
  {
    && v.origins[id] <= |v.whitelist.history|
    && Whitelist.ActiveAt(v.whitelist.history[..v.origins[id]], v.tables.withdrawals[id].user)
         == Some(v.tables.withdrawals[id].destination)
  }

  ghost predicate Inv(c: Config, v: Vault) {
    RowsOk(v) && ChainOk(c, v) && DrainOk(c, v) && SharesOk(v) && SnapshotsOk(v) && DestinationsOk(c, v)
  }

  // ----- every step keeps the invariants

  /** What a step may do to the withdrawals: nothing, append a queued row, or rewrite one row's progress. */
  ghost predicate RowEdit(before: seq<Withdrawal>, after: seq<Withdrawal>, id: nat) {
    && id < |before| && |after| == |before|
    && (forall j :: 0 <= j < |before| && j != id ==> after[j] == before[j])
    && SameClaim(before[id], after[id])
    && (before[id].txSig.Some? ==> after[id].txSig == before[id].txSig)
  }

  /** The claim of a row never changes, only its progress. */
  predicate SameClaim(a: Withdrawal, b: Withdrawal) {
    a.user == b.user && a.destination == b.destination && a.sharesBurned == b.sharesBurned && a.feeShares == b.feeShares
    && a.queuedAt == b.queuedAt
  }

  lemma {:induction false} HandlerKeepsRows(c: Config, v: Vault, e: Step)
    requires RowsOk(v) && ChainOk(c, v) && HandlerStep(c, v, e).Some?
    ensures var r := HandlerStep(c, v, e).value; RowsOk(r) && ChainOk(c, r)
  {
    var r := HandlerStep(c, v, e).value;
    if e.QueueWithdrawal? {
      var n := |v.tables.withdrawals|;
      assert !Paid(v.chain, n) by {
        forall k | 0 <= k < |v.chain| ensures v.chain[k].id != n {
          assert TransferOk(c, v.chain[k], v.tables.withdrawals);
        }
      }
      forall id | 0 <= id < |r.tables.withdrawals| ensures RowOk(r.tables.withdrawals[id], id, r.chain) {
        if id < n {
          assert RowOk(v.tables.withdrawals[id], id, v.chain);
        }
      }
    } else if e.Requeue? {
      forall id | 0 <= id < |r.tables.withdrawals| ensures RowOk(r.tables.withdrawals[id], id, r.chain) {
        assert RowOk(v.tables.withdrawals[id], id, v.chain);
      }
    } else if e.CreditDeposit? {
      CreditEffect(v.tables, e.params);
    }
    forall k | 0 <= k < |r.chain| ensures TransferOk(c, r.chain[k], r.tables.withdrawals) {
      assert TransferOk(c, v.chain[k], v.tables.withdrawals);
    }
  }

  lemma {:induction false} HandlerKeepsDrain(c: Config, v: Vault, e: Step)
    requires RowsOk(v) && DrainOk(c, v) && HandlerStep(c, v, e).Some?
    ensures DrainOk(c, HandlerStep(c, v, e).value)
  {
    hide DepositUsd, Upsert, AddShares, Latest, TotalShares, Whitelist.Step, PaysWithinDust, Covers, MakeQuote;
    if e.CreditDeposit? {
      CreditEffect(v.tables, e.params);
      hide Credit;
    }
  }

  lemma {:induction false} HandlerKeepsBalance(c: Config, v: Vault, e: Step)
    requires SharesBalance(v) && HandlerStep(c, v, e).Some?
    ensures SharesBalance(HandlerStep(c, v, e).value)
  {
    hide DepositUsd, Upsert, AddShares, Latest, TotalShares, SumBurned, SumMinted, Whitelist.Step;
    var r := HandlerStep(c, v, e).value;
    if e.QueueWithdrawal? {
      SumBurnedAppend(v.tables.withdrawals, r.tables.withdrawals[|v.tables.withdrawals|]);
    } else if e.Requeue? {
      SumBurnedUpdate(v.tables.withdrawals, e.id, r.tables.withdrawals[e.id]);
    } else if e.CreditDeposit? {
      CreditEffect(v.tables, e.params);
      hide Credit;
    }
  }

  lemma {:induction false} HandlerKeepsUsers(c: Config, v: Vault, e: Step)
    requires UsersBalance(v) && HandlerStep(c, v, e).Some?
    ensures UsersBalance(HandlerStep(c, v, e).value)
  {
    hide DepositUsd, Upsert, AddShares, Latest, TotalShares, SharesOf, MintedFor, BurnedFor, Whitelist.Step;
    var r := HandlerStep(c, v, e).value;
    if e.CreditDeposit? {
      CreditEffect(v.tables, e.params);
      hide Credit;
    }
    forall u: User
      ensures SharesOf(r.tables.shares, u) ==
        (if u == r.operator then r.boot else 0.0) + MintedFor(r.tables.deposits, u) - BurnedFor(r.tables.withdrawals, u)
    {
      if e.QueueWithdrawal? {
        BurnedForAppend(v.tables.withdrawals, r.tables.withdrawals[|v.tables.withdrawals|], u);
      } else if e.Requeue? {
        BurnedForUpdate(v.tables.withdrawals, e.id, r.tables.withdrawals[e.id], u);
      }
    }
  }

  lemma {:induction false} HandlerKeepsBurns(c: Config, v: Vault, e: Step)
    requires BurnsOk(v) && HandlerStep(c, v, e).Some?
    ensures BurnsOk(HandlerStep(c, v, e).value)
  {
    hide DepositUsd, Upsert, AddShares, Latest;
    if e.CreditDeposit? {
      CreditEffect(v.tables, e.params);
    }
  }

  lemma {:induction false} NotedSnapshot(v: Vault, t: Tables, s: Snapshot)
    requires SnapshotsOk(v) && t.snapshots == Upsert(v.tables.snapshots, s) && s.totalShares == TotalShares(t.shares)
    ensures SnapshotsOk(NoteSnapshot(v, t, s))
  {
    var k := UpsertShape(v.tables.snapshots, s);
    assert t.snapshots[k] == s;
    UpsertLatest(v.tables.snapshots, s);
    LatestIsNewest(v.tables.snapshots);
  }

  lemma {:induction false} HandlerKeepsSnapshots(c: Config, v: Vault, e: Step)
    requires SnapshotsOk(v) && HandlerStep(c, v, e).Some?
    ensures SnapshotsOk(HandlerStep(c, v, e).value)
  {
    if e.CreditDeposit? {
      var t := Credit(v.tables, e.params).value;
      NotedSnapshot(v, t, CreditSnapshot(e.params, TotalShares(t.shares)));
    }
  }

  lemma {:induction false} HandlerKeepsDestinations(c: Config, v: Vault, e: Step)
    requires DestinationsOk(c, v) && HandlerStep(c, v, e).Some?
    ensures DestinationsOk(c, HandlerStep(c, v, e).value)
  {
    var r := HandlerStep(c, v, e).value;
    if e.WhitelistMove? {
      Whitelist.StepKeepsInv(v.whitelist, e.move, c.cooldownMs);
      forall n | 0 <= n <= |v.whitelist.history| ensures r.whitelist.history[..n] == v.whitelist.history[..n] {
        assert r.whitelist.history[..n] == r.whitelist.history[..|v.whitelist.history|][..n];
      }
    } else if e.ReadAddress? {
      assert Whitelist.ActiveOf(v.whitelist, e.user) == Whitelist.ActiveAt(v.whitelist.history, e.user);
      assert v.whitelist.history[..|v.whitelist.history|] == v.whitelist.history;
    } else if e.CreditDeposit? {
      CreditEffect(v.tables, e.params);
    }
    forall id | 0 <= id < |r.origins| ensures OriginOk(r, id) {
      if id < |v.origins| {
        assert OriginOk(v, id);
      }
    }
  }

  lemma {:induction false} HandlerKeepsInv(c: Config, v: Vault, e: Step)
    requires Inv(c, v) && HandlerStep(c, v, e).Some?
    ensures Inv(c, HandlerStep(c, v, e).value)
  {
    HandlerKeepsRows(c, v, e);
    HandlerKeepsDrain(c, v, e);
    HandlerKeepsBalance(c, v, e);
    HandlerKeepsUsers(c, v, e);
    HandlerKeepsBurns(c, v, e);
    HandlerKeepsSnapshots(c, v, e);
    HandlerKeepsDestinations(c, v, e);
  }

  lemma {:induction false} EditKeepsRows(c: Config, v: Vault, r: Vault, id: nat)
    requires RowsOk(v) && ChainOk(c, v) && r.chain == v.chain
    requires RowEdit(v.tables.withdrawals, r.tables.withdrawals, id)
    requires RowOk(r.tables.withdrawals[id], id, v.chain)
    ensures RowsOk(r) && ChainOk(c, r)
  {
  }

  /** Rewriting the row in hand leaves the rows still to do queued. */
  lemma {:induction false} EditKeepsTodo(c: Config, v: Vault, r: Vault, id: nat)
    requires DrainOk(c, v) && v.drain.Draining? && r.drain.Draining? && r.drain.todo == v.drain.todo
    requires RowEdit(v.tables.withdrawals, r.tables.withdrawals, id) && !v.tables.withdrawals[id].status.Queued?
    requires PcOk(c, r, r.drain.pc)
    ensures DrainOk(c, r)
  {
  }

  lemma {:induction false} FailKeeps(c: Config, v: Vault, id: nat, reason: string, at: int)
    requires RowsOk(v) && ChainOk(c, v) && DrainOk(c, v) && v.drain.Draining?
    requires HasRow(v.tables, id) && v.tables.withdrawals[id].status.Processing?
    requires v.tables.withdrawals[id].txSig.None? && !Paid(v.chain, id)
    ensures var r := FailRow(v, id, reason, at); RowsOk(r) && ChainOk(c, r) && DrainOk(c, r)
  {
    var r := FailRow(v, id, reason, at);
    EditKeepsRows(c, v, r, id);
    EditKeepsTodo(c, v, r, id);
  }

  lemma {:induction false} TakeKeeps(c: Config, v: Vault, now: int)
    requires RowsOk(v) && ChainOk(c, v) && DrainOk(c, v) && v.drain.Draining? && v.drain.pc.NextRow?
        && v.drain.todo != []
    ensures var r := DrainStep(c, v, TakeRow(now)).value; RowsOk(r) && ChainOk(c, r) && DrainOk(c, r)
  {
    var r := DrainStep(c, v, TakeRow(now)).value;
    var id := v.drain.todo[0];
    assert RowOk(v.tables.withdrawals[id], id, v.chain);
    EditKeepsRows(c, v, r, id);
    assert PcOk(c, r, r.drain.pc);
    forall k | 0 <= k < |r.drain.todo|
      ensures HasRow(r.tables, r.drain.todo[k]) && r.tables.withdrawals[r.drain.todo[k]].status.Queued?
    {
      assert r.drain.todo[k] == v.drain.todo[k + 1];
    }
  }

  lemma {:induction false} TransferKeeps(c: Config, v: Vault, sig: Sig)
    requires RowsOk(v) && ChainOk(c, v) && DrainOk(c, v) && v.drain.Draining? && v.drain.pc.Ready?
    requires DrainStep(c, v, TransferLands(sig)).Some?
    ensures var r := DrainStep(c, v, TransferLands(sig)).value; RowsOk(r) && ChainOk(c, r) && DrainOk(c, r)
  {
    var r := DrainStep(c, v, TransferLands(sig)).value;
    var id := v.drain.pc.id;
    assert r.chain[|v.chain|].id == id;
    assert forall k :: 0 <= k < |v.chain| ==> r.chain[k] == v.chain[k];
    assert forall k :: 0 <= k < |v.chain| ==> v.chain[k].id != id;
    forall j | 0 <= j < |r.tables.withdrawals| ensures RowOk(r.tables.withdrawals[j], j, r.chain) {
      assert RowOk(v.tables.withdrawals[j], j, v.chain);
      if r.tables.withdrawals[j].txSig.Some? {
        var k :| 0 <= k < |v.chain| && v.chain[k].id == j && v.chain[k].sig == v.tables.withdrawals[j].txSig.value;
        assert r.chain[k] == v.chain[k];
      }
    }
    forall k | 0 <= k < |r.chain| ensures TransferOk(c, r.chain[k], r.tables.withdrawals) {
      if k < |v.chain| {
        assert TransferOk(c, v.chain[k], v.tables.withdrawals);
      }
    }
    assert r.chain[|v.chain|].sig == sig;
    assert PaidWith(r.chain, id, sig);
  }

  lemma {:induction false} BeginKeeps(c: Config, v: Vault)
    requires RowsOk(v) && ChainOk(c, v) && v.drain.Idle?
    ensures DrainOk(c, DrainStep(c, v, BeginDrain).value)
  {
    IdsByStatusExact(v.tables.withdrawals, Queued, |v.tables.withdrawals|);
  }

  lemma {:induction false} MarkKeeps(c: Config, v: Vault)
    requires RowsOk(v) && ChainOk(c, v) && DrainOk(c, v) && v.drain.Draining? && v.drain.pc.Sent?
    ensures DrainStep(c, v, MarkSentSucceeds).Some?
    ensures var r := DrainStep(c, v, MarkSentSucceeds).value; RowsOk(r) && ChainOk(c, r) && DrainOk(c, r)
  {
    var r := DrainStep(c, v, MarkSentSucceeds).value;
    EditKeepsRows(c, v, r, v.drain.pc.id);
    EditKeepsTodo(c, v, r, v.drain.pc.id);
  }

  lemma {:induction false} SettleRows(t: Tables, id: nat, sig: Sig, q: Quote, now: int)
    requires HasRow(t, id) && t.withdrawals[id].txSig == Some(sig)
    ensures Settle(t, id, sig, q, now).Some?
    ensures var u := Settle(t, id, sig, q, now).value;
            && RowEdit(t.withdrawals, u.withdrawals, id)
            && u.withdrawals == t.withdrawals[id := u.withdrawals[id]]
            && u.withdrawals[id].status.Completed? && u.withdrawals[id].txSig == Some(sig)
            && u.deposits == t.deposits
            && u.shares == AddShares(t.shares, t.withdrawals[id].user, -t.withdrawals[id].sharesBurned)
            && u.snapshots == Upsert(t.snapshots, SettleSnapshot(t, u, id, q, now))
  {
  }

  lemma {:induction false} SettleKeeps(c: Config, v: Vault)
    requires RowsOk(v) && ChainOk(c, v) && DrainOk(c, v) && v.drain.Draining? && v.drain.pc.Marked?
    ensures DrainStep(c, v, SettleSucceeds).Some?
    ensures var r := DrainStep(c, v, SettleSucceeds).value; RowsOk(r) && ChainOk(c, r) && DrainOk(c, r)
  {
    var pc := v.drain.pc;
    SettleRows(v.tables, pc.id, pc.sig, pc.quote, pc.now);
    var r := DrainStep(c, v, SettleSucceeds).value;
    assert RowOk(v.tables.withdrawals[pc.id], pc.id, v.chain);
    EditKeepsRows(c, v, r, pc.id);
    EditKeepsTodo(c, v, r, pc.id);
  }

  /** Steps that touch neither withdrawals nor chain only have to land on a good place. */
  lemma {:induction false} MoveKeeps(c: Config, v: Vault, r: Vault)
    requires RowsOk(v) && ChainOk(c, v) && DrainOk(c, v) && v.drain.Draining?
    requires r.tables.withdrawals == v.tables.withdrawals && r.chain == v.chain
    requires r.drain.Idle? || (r.drain.Draining? && r.drain.todo == v.drain.todo && PcOk(c, v, r.drain.pc))
    ensures RowsOk(r) && ChainOk(c, r) && DrainOk(c, r)
  {
  }

  lemma {:induction false} QuoteKeeps(c: Config, v: Vault, bal: Balances, positionUsd: real)
    requires RowsOk(v) && ChainOk(c, v) && DrainOk(c, v) && v.drain.Draining? && v.drain.pc.Priced?
    requires DrainStep(c, v, BalancesAnswer(bal, positionUsd)).Some?
    ensures var r := DrainStep(c, v, BalancesAnswer(bal, positionUsd)).value;
            RowsOk(r) && ChainOk(c, r) && DrainOk(c, r)
  {
    hide MakeQuote;
    hide PaysWithinDust;
    hide TotalShares;
    var w := v.tables.withdrawals[v.drain.pc.id];
    QuotePaysWithinDust(v.drain.pc.mid, bal, c.reserve, positionUsd, TotalShares(v.tables.shares),
                        w.sharesBurned - w.feeShares);
    MoveKeeps(c, v, DrainStep(c, v, BalancesAnswer(bal, positionUsd)).value);
  }

  lemma {:induction false} DrainKeepsRows(c: Config, v: Vault, e: Step)
    requires RowsOk(v) && ChainOk(c, v) && DrainOk(c, v) && DrainStep(c, v, e).Some? && !c.handlerAuditMayThrow
    ensures var r := DrainStep(c, v, e).value; RowsOk(r) && ChainOk(c, r) && DrainOk(c, r)
  {
    hide MakeQuote;
    hide PaysWithinDust;
    hide TotalShares;
    hide Settle;
    var r := DrainStep(c, v, e).value;
    if v.drain.Idle? {
      BeginKeeps(c, v);
    } else {
      var pc := v.drain.pc;
      if e.TakeRow? {
        TakeKeeps(c, v, e.now);
      } else if e.TransferLands? {
        TransferKeeps(c, v, e.sig);
      } else if e.BalancesAnswer? {
        QuoteKeeps(c, v, e.bal, e.positionUsd);
      } else if e.MarkSentSucceeds? {
        MarkKeeps(c, v);
      } else if e.SettleSucceeds? {
        SettleKeeps(c, v);
      } else if e.TransferThrows? {
        FailKeeps(c, v, pc.id, e.reason, pc.now);
        MoveKeeps(c, FailRow(v, pc.id, e.reason, pc.now), r);
      } else if e.OracleAnswers? && e.mid.None? {
        FailKeeps(c, v, pc.id, "oracle_unavailable", v.drain.pc.now);
      } else if e.RereadAnswers? && !Covers(e.bal, c.reserve, pc.quote.need) {
        FailKeeps(c, v, pc.id, "reserves_insufficient", pc.now);
      } else if e.CatchHandles? && v.tables.withdrawals[pc.id].txSig.None? {
        FailKeeps(c, v, pc.id, "unexpected", e.at);
      } else {
        MoveKeeps(c, v, r);
      }
    }
  }

  /** A drain step that is not a settlement rewrites at most one row, which is completed neither before nor after. */
  ghost predicate QuietEdit(v: Vault, r: Vault) {
    && r.tables.shares == v.tables.shares && r.tables.deposits == v.tables.deposits
    && r.tables.snapshots == v.tables.snapshots
    && r.boot == v.boot && r.operator == v.operator && r.burns == v.burns
    && r.lastSnapshot == v.lastSnapshot && r.ordered == v.ordered
    && r.whitelist == v.whitelist && r.origins == v.origins && r.request == v.request
    && (r.tables.withdrawals == v.tables.withdrawals
        || exists id: nat :: RowEdit(v.tables.withdrawals, r.tables.withdrawals, id)
                        && !v.tables.withdrawals[id].status.Completed? && !r.tables.withdrawals[id].status.Completed?)
  }

  lemma {:induction false} FailEdits(v: Vault, id: nat, reason: string, at: int)
    requires v.drain.Draining? && HasRow(v.tables, id) && !v.tables.withdrawals[id].status.Completed?
    ensures QuietEdit(v, FailRow(v, id, reason, at))
  {
    assert RowEdit(v.tables.withdrawals, FailRow(v, id, reason, at).tables.withdrawals, id);
  }

  lemma {:induction false} TakeEdits(c: Config, v: Vault, now: int)
    requires DrainOk(c, v) && DrainStep(c, v, TakeRow(now)).Some?
    ensures QuietEdit(v, DrainStep(c, v, TakeRow(now)).value)
  {
    assert RowEdit(v.tables.withdrawals, DrainStep(c, v, TakeRow(now)).value.tables.withdrawals, v.drain.todo[0]);
  }

  lemma {:induction false} MarkEdits(c: Config, v: Vault)
    requires DrainOk(c, v) && DrainStep(c, v, MarkSentSucceeds).Some?
    ensures QuietEdit(v, DrainStep(c, v, MarkSentSucceeds).value)
  {
    assert RowEdit(v.tables.withdrawals, DrainStep(c, v, MarkSentSucceeds).value.tables.withdrawals, v.drain.pc.id);
  }

  lemma {:induction false} DrainEdits(c: Config, v: Vault, e: Step)
    requires DrainOk(c, v) && DrainStep(c, v, e).Some? && !e.SettleSucceeds?
    ensures QuietEdit(v, DrainStep(c, v, e).value)
  {
    hide MakeQuote, TotalShares, Settle, PaysWithinDust, Latest, SettleSnapshot, RowEdit, IdsByStatus,
      FailWithdrawal, MarkSent, SetProcessing;
    if e.TakeRow? {
      TakeEdits(c, v, e.now);
    } else if e.MarkSentSucceeds? {
      MarkEdits(c, v);
    } else if e.TransferThrows? {
      FailEdits(v, v.drain.pc.id, e.reason, v.drain.pc.now);
    } else if e.OracleAnswers? && e.mid.None? {
      FailEdits(v, v.drain.pc.id, "oracle_unavailable", v.drain.pc.now);
    } else if e.RereadAnswers? {
      FailEdits(v, v.drain.pc.id, "reserves_insufficient", v.drain.pc.now);
    } else if e.CatchHandles? {
      FailEdits(v, v.drain.pc.id, "unexpected", e.at);
    }
  }

  lemma {:induction false} EditKeepsBurned(ws: seq<Withdrawal>, after: seq<Withdrawal>, id: nat)
    requires RowEdit(ws, after, id) && !ws[id].status.Completed? && !after[id].status.Completed?
    ensures SumBurned(after) == SumBurned(ws) && forall u :: BurnedFor(after, u) == BurnedFor(ws, u)
  {
    assert after == ws[id := after[id]];
    SumBurnedUpdate(ws, id, after[id]);
    forall u ensures BurnedFor(after, u) == BurnedFor(ws, u) {
      BurnedForUpdate(ws, id, after[id], u);
    }
  }

  lemma {:induction false} QuietKeeps(c: Config, v: Vault, r: Vault)
    requires SharesOk(v) && SnapshotsOk(v) && DestinationsOk(c, v) && QuietEdit(v, r)
    ensures SharesOk(r) && SnapshotsOk(r) && DestinationsOk(c, r)
  {
    if r.tables.withdrawals != v.tables.withdrawals {
      var id: nat :| RowEdit(v.tables.withdrawals, r.tables.withdrawals, id)
                     && !v.tables.withdrawals[id].status.Completed? && !r.tables.withdrawals[id].status.Completed?;
      EditKeepsBurned(v.tables.withdrawals, r.tables.withdrawals, id);
    }
    forall id | 0 <= id < |r.origins| ensures OriginOk(r, id) {
      assert OriginOk(v, id);
    }
  }

  /** The vault after the settlement of the row in hand. */
  function Settled(v: Vault, t: Tables): Vault
    requires v.drain.Draining? && v.drain.pc.Marked? && HasRow(v.tables, v.drain.pc.id)
  {
    var pc := v.drain.pc;
    At(NoteSnapshot(v.(burns := v.burns + [pc.id]), t, SettleSnapshot(v.tables, t, pc.id, pc.quote, pc.now)), NextRow)
  }

  lemma {:induction false} SettleStep(c: Config, v: Vault)
    requires DrainOk(c, v) && v.drain.Draining? && v.drain.pc.Marked?
    ensures var pc := v.drain.pc;
            && HasRow(v.tables, pc.id) && v.tables.withdrawals[pc.id].txSig == Some(pc.sig)
            && !v.tables.withdrawals[pc.id].status.Completed?
            && Settle(v.tables, pc.id, pc.sig, pc.quote, pc.now).Some?
            && DrainStep(c, v, SettleSucceeds)
               == Some(Settled(v, Settle(v.tables, pc.id, pc.sig, pc.quote, pc.now).value))
  {
    hide MakeQuote, TotalShares, Covers, PaysWithinDust, Latest, SettleSnapshot, NoteSnapshot;
    SettleRows(v.tables, v.drain.pc.id, v.drain.pc.sig, v.drain.pc.quote, v.drain.pc.now);
    hide Settle;
  }

  /**
    After a settlement the snapshot just written is the latest exactly when none is later than the row's clock read.
   */
  lemma {:induction false} SettleIsLatestIff(c: Config, v: Vault)
    requires DrainOk(c, v) && SnapshotsOk(v) && v.drain.Draining? && v.drain.pc.Marked?
    ensures DrainStep(c, v, SettleSucceeds).Some?
    ensures var r := DrainStep(c, v, SettleSucceeds).value;
            Latest(r.tables.snapshots) == Some(r.lastSnapshot) <==> NotBefore(v.tables.snapshots, v.drain.pc.now)
  {
    SettleStep(c, v);
    hide DrainStep, DrainOk, Settle, TotalShares, Upsert, AddShares, Latest;
    var pc := v.drain.pc;
    var t := Settle(v.tables, pc.id, pc.sig, pc.quote, pc.now).value;
    SettleRows(v.tables, pc.id, pc.sig, pc.quote, pc.now);
    UpsertLatest(v.tables.snapshots, SettleSnapshot(v.tables, t, pc.id, pc.quote, pc.now));
  }

  /** What SettleRows says of the tables after a settlement. */
  ghost predicate SettledTables(v: Vault, t: Tables)
    requires v.drain.Draining? && v.drain.pc.Marked? && HasRow(v.tables, v.drain.pc.id)
  {
    var pc := v.drain.pc;
    var w := v.tables.withdrawals[pc.id];
    && HasRow(t, pc.id) && t.withdrawals == v.tables.withdrawals[pc.id := t.withdrawals[pc.id]]
    && SameClaim(w, t.withdrawals[pc.id]) && t.withdrawals[pc.id].status.Completed?
    && t.deposits == v.tables.deposits && t.shares == AddShares(v.tables.shares, w.user, -w.sharesBurned)
    && t.snapshots == Upsert(v.tables.snapshots, SettleSnapshot(v.tables, t, pc.id, pc.quote, pc.now))
  }

  lemma {:induction false} SettleKeepsShares(v: Vault, t: Tables)
    requires v.drain.Draining? && v.drain.pc.Marked? && HasRow(v.tables, v.drain.pc.id) && SettledTables(v, t)
    requires SharesOk(v) && !v.tables.withdrawals[v.drain.pc.id].status.Completed?
    ensures SharesOk(Settled(v, t))
  {
    hide TotalShares, SumMinted, SumBurned, Upsert, AddShares, Latest, SettleSnapshot, UsersBalance, BurnsOk;
    var id := v.drain.pc.id;
    var w, r := v.tables.withdrawals[id], Settled(v, t);
    AddSharesEffect(v.tables.shares, w.user, -w.sharesBurned);
    SumBurnedUpdate(v.tables.withdrawals, id, t.withdrawals[id]);
    UserBurned(v, r, id);
    BurnRecorded(v, r, id);
  }

  lemma {:induction false} SettleKeepsSnapshots(v: Vault, t: Tables)
    requires v.drain.Draining? && v.drain.pc.Marked? && HasRow(v.tables, v.drain.pc.id) && SettledTables(v, t)
    requires SnapshotsOk(v)
    ensures SnapshotsOk(Settled(v, t))
  {
    hide TotalShares, Upsert, AddShares, Latest;
    var pc := v.drain.pc;
    SettledSnapshot(v.tables, t, pc.id, pc.quote, pc.now);
    NotedSnapshot(v.(burns := v.burns + [pc.id]), t, SettleSnapshot(v.tables, t, pc.id, pc.quote, pc.now));
  }

  lemma {:induction false} SettleKeepsDestinations(c: Config, v: Vault, t: Tables)
    requires v.drain.Draining? && v.drain.pc.Marked? && HasRow(v.tables, v.drain.pc.id) && SettledTables(v, t)
    requires DestinationsOk(c, v)
    ensures DestinationsOk(c, Settled(v, t))
  {
    hide TotalShares, Upsert, AddShares, Latest, Whitelist.Inv, SettleSnapshot;
    var r := Settled(v, t);
    forall id | 0 <= id < |r.origins| ensures OriginOk(r, id) {
      assert OriginOk(v, id);
    }
  }

  lemma {:induction false} SettleKeepsLedger(c: Config, v: Vault)
    requires DrainOk(c, v) && v.drain.Draining? && v.drain.pc.Marked?
    requires SharesOk(v) && SnapshotsOk(v) && DestinationsOk(c, v)
    ensures DrainStep(c, v, SettleSucceeds).Some?
    ensures var r := DrainStep(c, v, SettleSucceeds).value; SharesOk(r) && SnapshotsOk(r) && DestinationsOk(c, r)
  {
    SettleStep(c, v);
    hide DrainStep, DrainOk, Settle, SettleSnapshot, SharesOk, SnapshotsOk, DestinationsOk, Settled;
    var pc := v.drain.pc;
    var t := Settle(v.tables, pc.id, pc.sig, pc.quote, pc.now).value;
    SettleRows(v.tables, pc.id, pc.sig, pc.quote, pc.now);
    SettleKeepsShares(v, t);
    SettleKeepsSnapshots(v, t);
    SettleKeepsDestinations(c, v, t);
  }

  /** The burn leaves every balance where that user's rows say. */
  lemma {:induction false} UserBurned(v: Vault, r: Vault, id: nat)
    requires UsersBalance(v) && HasRow(v.tables, id) && !v.tables.withdrawals[id].status.Completed?
    requires HasRow(r.tables, id) && r.tables.withdrawals == v.tables.withdrawals[id := r.tables.withdrawals[id]]
    requires SameClaim(v.tables.withdrawals[id], r.tables.withdrawals[id]) && r.tables.withdrawals[id].status.Completed?
    requires var w := v.tables.withdrawals[id]; r.tables.shares == AddShares(v.tables.shares, w.user, -w.sharesBurned)
    requires r.tables.deposits == v.tables.deposits && r.operator == v.operator && r.boot == v.boot
    ensures UsersBalance(r)
  {
    var w := v.tables.withdrawals[id];
    AddSharesEffect(v.tables.shares, w.user, -w.sharesBurned);
    hide AddShares, SharesOf, MintedFor, BurnedFor;
    forall u: User
      ensures SharesOf(r.tables.shares, u) ==
        (if u == r.operator then r.boot else 0.0) + MintedFor(r.tables.deposits, u) - BurnedFor(r.tables.withdrawals, u)
    {
      BurnedForUpdate(v.tables.withdrawals, id, r.tables.withdrawals[id], u);
    }
  }

  lemma {:induction false} BurnRecorded(v: Vault, r: Vault, id: nat)
    requires BurnsOk(v) && HasRow(v.tables, id) && !v.tables.withdrawals[id].status.Completed?
        && r.burns == v.burns + [id]
    requires HasRow(r.tables, id) && r.tables.withdrawals == v.tables.withdrawals[id := r.tables.withdrawals[id]]
    requires r.tables.withdrawals[id].status.Completed?
    ensures BurnsOk(r)
  {
  }

  lemma {:induction false} SettledSnapshot(before: Tables, after: Tables, id: nat, q: Quote, now: int)
    requires HasRow(before, id)
    ensures SettleSnapshot(before, after, id, q, now).totalShares == TotalShares(after.shares)
  {
  }

  lemma {:induction false} NextKeepsInv(c: Config, v: Vault, e: Step)
    requires Inv(c, v) && Next(c, v, e).Some? && !c.handlerAuditMayThrow
    ensures Inv(c, Next(c, v, e).value)
  {
    if HandlerStep(c, v, e).Some? {
      HandlerKeepsInv(c, v, e);
    } else {
      DrainKeepsRows(c, v, e);
      if e.SettleSucceeds? {
        SettleKeepsLedger(c, v);
      } else {
        DrainEdits(c, v, e);
        QuietKeeps(c, v, DrainStep(c, v, e).value);
      }
    }
  }

  lemma {:induction false} StartInv(c: Config, operator: User, initialNavUsd: real, now: int)
    ensures Inv(c, Start(operator, initialNavUsd, now))
  {
    var v := Start(operator, initialNavUsd, now);
    assert v.tables.shares[1..] == [];
    assert TotalShares(v.tables.shares) == initialNavUsd;
    assert v.tables.snapshots[1..] == [];
    assert SharesBalance(v);
    assert UsersBalance(v);
  }

  lemma {:induction false} RunKeepsInv(c: Config, v: Vault, es: seq<Step>)
    requires Inv(c, v) && !c.handlerAuditMayThrow
    ensures Inv(c, Run(c, v, es))
  {
    if es != [] {
      var before := Run(c, v, es[..|es| - 1]);
      RunKeepsInv(c, v, es[..|es| - 1]);
      if Next(c, before, es[|es| - 1]).Some? {
        NextKeepsInv(c, before, es[|es| - 1]);
      }
    }
  }

  // ----- the promises, over every run of a bootstrapped vault

  /** Each withdrawal id gets at most one landed transfer, and a row that shows a signature can never be paid again. */
  lemma {:induction false} PaidAtMostOnce(c: Config, operator: User, initialNavUsd: real, now: int, es: seq<Step>)
    requires !c.handlerAuditMayThrow
    ensures var v := Run(c, Start(operator, initialNavUsd, now), es);
            && PaidOnce(v.chain)
            && (forall id :: 0 <= id < |v.tables.withdrawals| ==>
                  var w := v.tables.withdrawals[id];
                  && (w.txSig.Some? ==> w.status.Processing? || w.status.Completed?)
                  && (w.txSig.Some? ==> PaidWith(v.chain, id, w.txSig.value))
                  && (w.status.Queued? || w.status.Failed? ==> !Paid(v.chain, id)))
  {
    var v := Run(c, Start(operator, initialNavUsd, now), es);
    StartInv(c, operator, initialNavUsd, now);
    RunKeepsInv(c, Start(operator, initialNavUsd, now), es);
    forall id | 0 <= id < |v.tables.withdrawals| ensures RowOk(v.tables.withdrawals[id], id, v.chain) {
    }
  }

  /**
    Shares, in total and of every user, are the bootstrap shares plus everything minted minus everything burned, and no
    row burns twice.
   */
  lemma {:induction false} SharesConserved(c: Config, operator: User, initialNavUsd: real, now: int, es: seq<Step>)
    requires !c.handlerAuditMayThrow
    ensures var v := Run(c, Start(operator, initialNavUsd, now), es);
            && TotalShares(v.tables.shares) ==
                 initialNavUsd + SumMinted(v.tables.deposits) - SumBurned(v.tables.withdrawals)
            && (forall u: User :: SharesOf(v.tables.shares, u) ==
                  (if u == operator then initialNavUsd else 0.0)
                  + MintedFor(v.tables.deposits, u) - BurnedFor(v.tables.withdrawals, u))
            && (forall j, k :: 0 <= j < k < |v.burns| ==> v.burns[j] != v.burns[k])
            && (forall id :: 0 <= id < |v.tables.withdrawals| ==>
                (v.tables.withdrawals[id].status.Completed? <==> id in v.burns))
  {
    StartInv(c, operator, initialNavUsd, now);
    RunKeepsInv(c, Start(operator, initialNavUsd, now), es);
    BootFixed(c, Start(operator, initialNavUsd, now), es);
  }

  lemma {:induction false} HandlerKeepsBoot(c: Config, v: Vault, e: Step)
    requires HandlerStep(c, v, e).Some?
    ensures HandlerStep(c, v, e).value.boot == v.boot && HandlerStep(c, v, e).value.operator == v.operator
  {
    hide TotalShares, Credit, Latest, Whitelist.Step;
  }

  lemma {:induction false} DrainKeepsBoot(c: Config, v: Vault, e: Step)
    requires DrainStep(c, v, e).Some?
    ensures DrainStep(c, v, e).value.boot == v.boot && DrainStep(c, v, e).value.operator == v.operator
  {
    hide MakeQuote, TotalShares, Settle, Latest, Covers, IdsByStatus;
  }

  lemma {:induction false} BootFixed(c: Config, v: Vault, es: seq<Step>)
    ensures Run(c, v, es).boot == v.boot && Run(c, v, es).operator == v.operator
  {
    hide HandlerStep, DrainStep;
    if es != [] {
      var before, e := Run(c, v, es[..|es| - 1]), es[|es| - 1];
      BootFixed(c, v, es[..|es| - 1]);
      if HandlerStep(c, before, e).Some? {
        HandlerKeepsBoot(c, before, e);
      } else if DrainStep(c, before, e).Some? {
        DrainKeepsBoot(c, before, e);
      }
    }
  }

  /**
    Every landed transfer sent at most the SOL above the reserve and the BERT in the balances read last, was worth at
    most what was owed and within one lamport plus one raw BERT of it, and went to the row's destination.
   */
  lemma {:induction false} TransfersCovered(c: Config, operator: User, initialNavUsd: real, now: int, es: seq<Step>,
                                            k: nat)
    requires !c.handlerAuditMayThrow
    requires k < |Run(c, Start(operator, initialNavUsd, now), es).chain|
    ensures var v := Run(c, Start(operator, initialNavUsd, now), es);
            var t := v.chain[k];
            && t.quote.need.solLamports <= SpendableSol(t.read, c.reserve) && t.quote.need.bertRaw <= t.read.bertRaw
            && PaysWithinDust(t.quote.need, t.quote.usdOwed, t.basis.mid)
            && HasRow(v.tables, t.id) && t.destination == v.tables.withdrawals[t.id].destination
  {
    StartInv(c, operator, initialNavUsd, now);
    RunKeepsInv(c, Start(operator, initialNavUsd, now), es);
    var v := Run(c, Start(operator, initialNavUsd, now), es);
    assert TransferOk(c, v.chain[k], v.tables.withdrawals);
  }

  /**
    The last snapshot written holds the live share total. It is the latest one exactly when none stored is later, which
    is so as long as the timestamps written never go back.
   */
  lemma {:induction false} LatestSnapshotIsLive(c: Config, operator: User, initialNavUsd: real, now: int, es: seq<Step>)
    requires !c.handlerAuditMayThrow
    ensures var v := Run(c, Start(operator, initialNavUsd, now), es);
            && v.lastSnapshot in v.tables.snapshots && v.lastSnapshot.totalShares == TotalShares(v.tables.shares)
            && (Latest(v.tables.snapshots) == Some(v.lastSnapshot) <==>
                NotBefore(v.tables.snapshots, v.lastSnapshot.ts))
            && (v.ordered ==> Latest(v.tables.snapshots) == Some(v.lastSnapshot))
  {
    StartInv(c, operator, initialNavUsd, now);
    RunKeepsInv(c, Start(operator, initialNavUsd, now), es);
    var v := Run(c, Start(operator, initialNavUsd, now), es);
    LatestIff(v.tables.snapshots, v.lastSnapshot);
  }

  // ----- destinations

  /** Every payout goes to an address that was the user's active one when the withdraw handler read it. */
  lemma {:induction false} PayoutsGoToReadAddress(c: Config, operator: User, initialNavUsd: real, now: int,
                                                  es: seq<Step>, k: nat)
    requires !c.handlerAuditMayThrow
    requires k < |Run(c, Start(operator, initialNavUsd, now), es).chain|
    ensures var v := Run(c, Start(operator, initialNavUsd, now), es);
            var t := v.chain[k];
            && HasRow(v.tables, t.id) && t.id < |v.origins| && v.origins[t.id] <= |v.whitelist.history|
            && Whitelist.ActiveAt(v.whitelist.history[..v.origins[t.id]], v.tables.withdrawals[t.id].user)
               == Some(t.destination)
  {
    StartInv(c, operator, initialNavUsd, now);
    RunKeepsInv(c, Start(operator, initialNavUsd, now), es);
    var v := Run(c, Start(operator, initialNavUsd, now), es);
    assert TransferOk(c, v.chain[k], v.tables.withdrawals);
    assert OriginOk(v, v.chain[k].id);
  }

  // ----- progress that is never undone

  /** Rows stay, their claims stay, a recorded signature stays as it is, and a completed row stays completed. */
  ghost predicate Progress(a: Vault, b: Vault) {
    && |a.tables.withdrawals| <= |b.tables.withdrawals|
    && (forall id :: 0 <= id < |a.tables.withdrawals| ==>
          var w, x := a.tables.withdrawals[id], b.tables.withdrawals[id];
          && SameClaim(w, x)
          && (w.txSig.Some? ==> x.txSig == w.txSig)
          && (w.status.Completed? ==> x.status.Completed?))
    && |a.chain| <= |b.chain| && b.chain[..|a.chain|] == a.chain
  }

  lemma {:induction false} HandlerProgresses(c: Config, v: Vault, e: Step)
    requires HandlerStep(c, v, e).Some?
    ensures Progress(v, HandlerStep(c, v, e).value)
  {
    hide DepositUsd, Upsert, AddShares, Latest;
    if e.CreditDeposit? {
      CreditEffect(v.tables, e.params);
    }
  }

  lemma {:induction false} ChainGrows(c: Config, v: Vault, e: Step)
    requires DrainStep(c, v, e).Some?
    ensures var r := DrainStep(c, v, e).value; |v.chain| <= |r.chain| && r.chain[..|v.chain|] == v.chain
  {
    hide MakeQuote;
    hide TotalShares;
    hide Settle;
  }

  lemma {:induction false} EditProgresses(v: Vault, r: Vault, id: nat)
    requires RowEdit(v.tables.withdrawals, r.tables.withdrawals, id)
    requires v.tables.withdrawals[id].status.Completed? ==> r.tables.withdrawals[id].status.Completed?
    requires |v.chain| <= |r.chain| && r.chain[..|v.chain|] == v.chain
    ensures Progress(v, r)
  {
  }

  lemma {:induction false} NextProgresses(c: Config, v: Vault, e: Step)
    requires Inv(c, v) && Next(c, v, e).Some?
    ensures Progress(v, Next(c, v, e).value)
  {
    hide DrainStep;
    hide HandlerStep;
    hide Settle;
    if HandlerStep(c, v, e).Some? {
      HandlerProgresses(c, v, e);
    } else {
      var r := DrainStep(c, v, e).value;
      ChainGrows(c, v, e);
      if e.SettleSucceeds? {
        SettledRow(c, v);
        EditProgresses(v, r, v.drain.pc.id);
      } else {
        DrainEdits(c, v, e);
        if r.tables.withdrawals != v.tables.withdrawals {
          var id: nat :| RowEdit(v.tables.withdrawals, r.tables.withdrawals, id)
                         && !v.tables.withdrawals[id].status.Completed? && !r.tables.withdrawals[id].status.Completed?;
          EditProgresses(v, r, id);
        }
      }
    }
  }

  lemma {:induction false} SettledRow(c: Config, v: Vault)
    requires DrainOk(c, v) && DrainStep(c, v, SettleSucceeds).Some?
    ensures v.drain.Draining? && v.drain.pc.Marked? && HasRow(v.tables, v.drain.pc.id)
    ensures var r := DrainStep(c, v, SettleSucceeds).value;
            RowEdit(v.tables.withdrawals, r.tables.withdrawals, v.drain.pc.id)
              && r.tables.withdrawals[v.drain.pc.id].status.Completed?
  {
    var pc := v.drain.pc;
    SettleRows(v.tables, pc.id, pc.sig, pc.quote, pc.now);
  }

  lemma {:induction false} RunProgresses(c: Config, v: Vault, es: seq<Step>, more: seq<Step>)
    requires Inv(c, v) && !c.handlerAuditMayThrow
    ensures Progress(Run(c, v, es), Run(c, v, es + more))
  {
    if more == [] {
      assert es + more == es;
    } else {
      var n := |more| - 1;
      RunProgresses(c, v, es, more[..n]);
      assert (es + more)[..|es + more| - 1] == es + more[..n];
      var before := Run(c, v, es + more[..n]);
      RunKeepsInv(c, v, es + more[..n]);
      if Next(c, before, more[n]).Some? {
        NextProgresses(c, before, more[n]);
        ProgressTrans(Run(c, v, es), before, Next(c, before, more[n]).value);
      }
    }
  }

  lemma {:induction false} ProgressTrans(a: Vault, b: Vault, d: Vault)
    requires Progress(a, b) && Progress(b, d)
    ensures Progress(a, d)
  {
  }
}
