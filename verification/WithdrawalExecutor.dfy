/**
  The withdrawal executor as the source writes it (src/vault/withdrawalExecutor.ts:33-228): an object that works on the
  store in place, with awaited calls answered by an environment and handlers running at every await.
  Each method is proved to do exactly what the protocol's steps do, so every execution is a run of PayoutProtocol.
 */
module WithdrawalExecutor {
  import opened Prelude
  import opened ShareMath
  import L = Ledger
  import Whitelist
  import opened DepositorStore
  import opened PayoutProtocol

  /** How the outside world answers one row: each awaited call, each fault, and what handlers do at each await. */
  datatype RowEnv = RowEnv(
    now: int, catchAt: int,
    mid: Answer<Option<Mid>>, balances: Answer<(Balances, real)>, close: Answer<()>, reread: Answer<Balances>,
    transfer: Answer<L.Sig>, reason: string, markFaults: bool, settleFaults: bool,
    others: nat -> seq<Step>)

  predicate Interleaves(e: Step) {
    e.WhitelistMove? || e.ReadAddress? || e.DropRequest? || e.QueueWithdrawal? || e.Requeue? || e.CreditDeposit?
  }

  /** What handlers do to the vault while the drain waits; a handler that refuses or throws changes nothing. */
  function Interleave(c: Config, v: Vault, es: seq<Step>): Vault {
    if es == [] then v
    else
      var before := Interleave(c, v, es[..|es| - 1]);
      var e := es[|es| - 1];
      var n := if Interleaves(e) then HandlerStep(c, before, e) else None;
      if n.Some? then n.value else before
  }

  /** Rows left before the row in hand is done with; the code only moves forward. */
  function Rank(pc: Pc): nat {
    match pc
    case NextRow => 0
    case Raised(_) => 1
    case Marked(_, _, _, _) => 2
    case Sent(_, _, _, _) => 3
    case Ready(_, _, _, _, _) => 4
    case Freed(_, _, _, _) => 5
    case Short(_, _, _, _) => 6
    case Priced(_, _, _) => 7
    case Taken(_, _) => 8
  }

  predicate Awaits(pc: Pc) {
    Rank(pc) >= 4
  }

  /** The step the environment makes the code take next. */
  function StepAt(pc: Pc, env: RowEnv): Step
    requires !pc.NextRow?
  {
    match pc
    case Taken(_, _) => if env.mid.Threw? then CallThrows else OracleAnswers(env.mid.value)
    case Priced(_, _, _) => if env.balances.Threw? then CallThrows
        else BalancesAnswer(env.balances.value.0, env.balances.value.1)
    case Short(_, _, _, _) => if env.close.Threw? then CallThrows else PartialCloseReturns
    case Freed(_, _, _, _) => if env.reread.Threw? then CallThrows else RereadAnswers(env.reread.value)
    case Ready(_, _, _, _, _) => if env.transfer.Threw? then TransferThrows(env.reason)
        else TransferLands(env.transfer.value)
    case Sent(_, _, _, _) => if env.markFaults then MarkSentFaults else MarkSentSucceeds
    case Marked(_, _, _, _) => if env.settleFaults then SettleFaults else SettleSucceeds
    case Raised(_) => CatchHandles(env.catchAt)
  }

  /** The vault after the row in hand is done with. */
  function ExecRow(c: Config, v: Vault, env: RowEnv): Vault
    requires v.drain.Draining?
    decreases Rank(v.drain.pc)
  {
    var pc := v.drain.pc;
    if pc.NextRow? then v
    else
      var w := if Awaits(pc) then Interleave(c, v, env.others(Rank(pc))) else v;
      var n := DrainStep(c, w, StepAt(pc, env));
      if n.Some? && n.value.drain.Draining? && Rank(n.value.drain.pc) < Rank(pc) then ExecRow(c, n.value, env) else w
  }

  /** The vault after the remaining rows of the drain. */
  function ExecRows(c: Config, v: Vault, envs: nat -> RowEnv): Vault
    requires v.drain.Draining?
    decreases |v.drain.todo|
  {
    if v.drain.todo == [] || !v.drain.pc.NextRow? then v
    else
      var env := envs(v.drain.todo[0]);
      var n := ExecRow(c, DrainStep(c, v, TakeRow(env.now)).value, env);
      if n.drain.Draining? && |n.drain.todo| < |v.drain.todo| then ExecRows(c, n, envs) else v
  }

  // ----- executions are runs

  lemma {:induction false} InterleaveKeepsDrain(c: Config, v: Vault, es: seq<Step>)
    ensures Interleave(c, v, es).drain == v.drain
  {
    hide L.TotalShares, L.Credit, L.Latest;
    if es != [] {
      InterleaveKeepsDrain(c, v, es[..|es| - 1]);
    }
  }

  lemma {:induction false} InterleaveIsRun(c: Config, v0: Vault, es: seq<Step>,
                                           others: seq<Step>) returns (more: seq<Step>)
    ensures Run(c, v0, more) == Interleave(c, Run(c, v0, es), others)
  {
    if others == [] {
      more := es;
    } else {
      var n := |others| - 1;
      var front := InterleaveIsRun(c, v0, es, others[..n]);
      if Interleaves(others[n]) && HandlerStep(c, Run(c, v0, front), others[n]).Some? {
        more := front + [others[n]];
        assert more[..|front|] == front;
      } else {
        more := front;
      }
    }
  }

  /** Every execution of a row, whatever the environment answers, is a run of the protocol. */
  lemma {:induction false} ExecRowIsRun(c: Config, v0: Vault, es: seq<Step>, env: RowEnv) returns (more: seq<Step>)
    requires Run(c, v0, es).drain.Draining?
    ensures Run(c, v0, more) == ExecRow(c, Run(c, v0, es), env)
    decreases Rank(Run(c, v0, es).drain.pc)
  {
    hide Run, HandlerStep, DrainStep;
    var v := Run(c, v0, es);
    var pc := v.drain.pc;
    if pc.NextRow? {
      more := es;
    } else {
      var waited := es;
      if Awaits(pc) {
        waited := InterleaveIsRun(c, v0, es, env.others(Rank(pc)));
        InterleaveKeepsDrain(c, v, env.others(Rank(pc)));
      }
      var w := Run(c, v0, waited);
      var e := StepAt(pc, env);
      var n := DrainStep(c, w, e);
      if n.Some? && n.value.drain.Draining? && Rank(n.value.drain.pc) < Rank(pc) {
        DrainStepRuns(c, v0, waited, e);
        more := ExecRowIsRun(c, v0, waited + [e], env);
      } else {
        more := waited;
      }
    }
  }

  lemma {:induction false} DrainStepRuns(c: Config, v0: Vault, es: seq<Step>, e: Step)
    requires DrainStep(c, Run(c, v0, es), e).Some?
    ensures Run(c, v0, es + [e]) == DrainStep(c, Run(c, v0, es), e).value
  {
    hide MakeQuote, L.TotalShares, L.Settle;
    assert (es + [e])[..|es|] == es;
  }

  lemma {:induction false} InterleaveKeepsInv(c: Config, v: Vault, es: seq<Step>)
    requires Inv(c, v)
    ensures Inv(c, Interleave(c, v, es))
  {
    hide Inv, HandlerStep;
    if es != [] {
      var before := Interleave(c, v, es[..|es| - 1]);
      InterleaveKeepsInv(c, v, es[..|es| - 1]);
      var e := es[|es| - 1];
      if Interleaves(e) && HandlerStep(c, before, e).Some? {
        HandlerKeepsInv(c, before, e);
      }
    }
  }

  /** One round of ExecRow: what handlers do at the await, then the code's step. */
  function Stepped(c: Config, v: Vault, env: RowEnv): Option<Vault>
    requires v.drain.Draining? && !v.drain.pc.NextRow?
  {
    var pc := v.drain.pc;
    DrainStep(c, if Awaits(pc) then Interleave(c, v, env.others(Rank(pc))) else v, StepAt(pc, env))
  }

  ghost predicate AtPc(v: Vault, pc: Pc) {
    v.drain.Draining? && v.drain.pc == pc
  }

  /** One round of the code stays in the drain, moves forward, and keeps the invariants. */
  lemma {:induction false} SteppedKeeps(c: Config, v: Vault, env: RowEnv)
    requires v.drain.Draining? && !v.drain.pc.NextRow? && Inv(c, v) && !c.handlerAuditMayThrow
    ensures var n := Stepped(c, v, env);
            && n.Some? && n.value.drain.Draining? && Inv(c, n.value)
            && n.value.drain.todo == v.drain.todo && Rank(n.value.drain.pc) < Rank(v.drain.pc)
            && ExecRow(c, v, env) == ExecRow(c, n.value, env)
  {
    var pc := v.drain.pc;
    var w := if Awaits(pc) then Interleave(c, v, env.others(Rank(pc))) else v;
    InterleaveKeepsDrain(c, v, env.others(Rank(pc)));
    InterleaveKeepsInv(c, v, env.others(Rank(pc)));
    StepEnabled(c, w, env);
    DrainKeepsInv(c, w, StepAt(pc, env));
  }

  lemma {:induction false} DrainKeepsInv(c: Config, v: Vault, e: Step)
    requires DrainStep(c, v, e).Some? && Inv(c, v) && !c.handlerAuditMayThrow
    ensures Inv(c, DrainStep(c, v, e).value)
  {
    hide Inv;
    NoHandler(c, v, e);
    NextKeepsInv(c, v, e);
  }

  lemma {:induction false} NoHandler(c: Config, v: Vault, e: Step)
    requires DrainStep(c, v, e).Some?
    ensures HandlerStep(c, v, e).None?
  {
    hide MakeQuote, L.TotalShares, L.Settle;
  }

  ghost predicate MovesOn(v: Vault, n: Option<Vault>)
    requires v.drain.Draining?
  {
    n.Some? && n.value.drain.Draining? && n.value.drain.todo == v.drain.todo
      && Rank(n.value.drain.pc) < Rank(v.drain.pc)
  }

  lemma {:induction false} AwaitedStepEnabled(c: Config, v: Vault, env: RowEnv)
    requires v.drain.Draining? && Awaits(v.drain.pc) && DrainOk(c, v)
    ensures MovesOn(v, DrainStep(c, v, StepAt(v.drain.pc, env)))
  {
    hide MakeQuote, L.TotalShares, PaysWithinDust, Covers, L.IdsByStatus, L.Latest, SettleSnapshot, L.Settle,
      NoteSnapshot;
  }

  lemma {:induction false} StepEnabled(c: Config, v: Vault, env: RowEnv)
    requires v.drain.Draining? && !v.drain.pc.NextRow? && DrainOk(c, v)
    ensures MovesOn(v, DrainStep(c, v, StepAt(v.drain.pc, env)))
  {
    var pc := v.drain.pc;
    if Awaits(pc) {
      AwaitedStepEnabled(c, v, env);
    } else {
      hide MakeQuote, L.TotalShares, PaysWithinDust, Covers, L.IdsByStatus, L.Latest, SettleSnapshot;
      if pc.Marked? {
        SettleRows(v.tables, pc.id, pc.sig, pc.quote, pc.now);
        hide L.Settle;
      }
    }
  }

  /** The row is over: failed and never paid, or paid. */
  ghost predicate Over(v: Vault, id: nat) {
    && L.HasRow(v.tables, id) && !v.tables.withdrawals[id].status.Queued?
    && (v.tables.withdrawals[id].status.Failed? <==> !Paid(v.chain, id))
  }

  lemma {:induction false} StepEnds(c: Config, v: Vault, env: RowEnv)
    requires v.drain.Draining? && !v.drain.pc.NextRow? && DrainOk(c, v) && RowsOk(v)
    requires DrainStep(c, v, StepAt(v.drain.pc, env)).Some?
    ensures var n := DrainStep(c, v, StepAt(v.drain.pc, env)).value;
            && n.drain.Draining?
            && (n.drain.pc.NextRow? ==> Over(n, v.drain.pc.id))
            && (!n.drain.pc.NextRow? ==> n.drain.pc.id == v.drain.pc.id)
  {
    hide MakeQuote, L.TotalShares, PaysWithinDust, Covers, L.IdsByStatus, L.Latest, SettleSnapshot;
    var pc := v.drain.pc;
    assert RowOk(v.tables.withdrawals[pc.id], pc.id, v.chain);
    if pc.Marked? {
      SettleRows(v.tables, pc.id, pc.sig, pc.quote, pc.now);
    }
  }

  /** A row the drain takes is never left in the middle: it ends failed and unpaid, or paid. */
  lemma {:induction false} RowEnds(c: Config, v: Vault, env: RowEnv)
    requires v.drain.Draining? && !v.drain.pc.NextRow? && Inv(c, v) && !c.handlerAuditMayThrow
    ensures var r := ExecRow(c, v, env);
            && AtPc(r, NextRow) && r.drain.todo == v.drain.todo && Inv(c, r) && Over(r, v.drain.pc.id)
    decreases Rank(v.drain.pc)
  {
    hide ExecRow, DrainStep;
    var pc := v.drain.pc;
    SteppedKeeps(c, v, env);
    var n := Stepped(c, v, env).value;
    var w := if Awaits(pc) then Interleave(c, v, env.others(Rank(pc))) else v;
    InterleaveKeepsDrain(c, v, env.others(Rank(pc)));
    InterleaveKeepsInv(c, v, env.others(Rank(pc)));
    StepEnds(c, w, env);
    if n.drain.pc.NextRow? {
      Finished(c, n, env);
    } else {
      RowEnds(c, n, env);
    }
  }

  lemma {:induction false} Finished(c: Config, v: Vault, env: RowEnv)
    requires AtPc(v, NextRow)
    ensures ExecRow(c, v, env) == v
  {
  }

  /** A whole drain is a run of the protocol and takes every row it listed. */
  lemma {:induction false} DrainIsRun(c: Config, v0: Vault, es: seq<Step>,
                                      envs: nat -> RowEnv) returns (more: seq<Step>)
    requires var v := Run(c, v0, es); AtPc(v, NextRow) && Inv(c, v)
    requires !c.handlerAuditMayThrow
    ensures var v := Run(c, v0, es);
            var r := ExecRows(c, v, envs);
            && Run(c, v0, more) == r && AtPc(r, NextRow) && r.drain.todo == [] && Inv(c, r)
    decreases |Run(c, v0, es).drain.todo|
  {
    hide DrainStep, HandlerStep, ExecRow, Run, Inv;
    var v := Run(c, v0, es);
    if v.drain.todo == [] {
      more := es;
    } else {
      Takes(c, v, envs(v.drain.todo[0]).now);
      var id := v.drain.todo[0];
      var take := TakeRow(envs(id).now);
      DrainStepRuns(c, v0, es, take);
      DrainKeepsInv(c, v, take);
      var taken := es + [take];
      RowEnds(c, Run(c, v0, taken), envs(id));
      var row := ExecRowIsRun(c, v0, taken, envs(id));
      more := DrainIsRun(c, v0, row, envs);
    }
  }

  lemma {:induction false} Takes(c: Config, v: Vault, now: int)
    requires AtPc(v, NextRow) && v.drain.todo != []
    ensures var n := DrainStep(c, v, TakeRow(now));
            n.Some? && n.value.drain == Draining(v.drain.todo[1..], Taken(v.drain.todo[0], now))
  {
  }

  class Executor {
    const config: Config
    const store: Store
    var whitelist: Whitelist.State
    var request: Option<Request>
    /** The protocol's view of the vault. */
    ghost var vault: Vault

    ghost predicate Valid()
      reads this, store
    {
      store.Contents() == vault.tables && whitelist == vault.whitelist && request == vault.request
    }

    constructor (config: Config, store: Store, ghost vault: Vault)
      requires store.Contents() == vault.tables && vault.whitelist == Whitelist.EMPTY && vault.request.None?
      ensures this.config == config && this.store == store && this.vault == vault && Valid()
    {
      this.config := config;
      this.store := store;
      this.vault := vault;
      whitelist := Whitelist.EMPTY;
      request := None;
    }

    /** One handler runs to completion between two steps of the drain. */
    method Handle(e: Step)
      requires Valid() && Interleaves(e)
      modifies this, store
      ensures Valid()
      ensures vault == var n := HandlerStep(config, old(vault), e); if n.Some? then n.value else old(vault)
    {
      ghost var n := HandlerStep(config, vault, e);
      match e {
      case WhitelistMove(m) =>
        var w := Whitelist.Step(whitelist, m, config.cooldownMs);
        if w.Some? {
          whitelist := w.value;
        }
      case ReadAddress(u) =>
        if request.None? && u in whitelist.active {
          request := Some(Request(u, whitelist.active[u], |whitelist.history|));
        }
      case DropRequest =>
        request := None;
      case QueueWithdrawal(burned, fee, at) =>
        if request.Some? {
          var _ := store.EnqueueWithdrawal(request.value.user, request.value.address, burned, fee, at);
          request := None;
        }
      case Requeue(id, operator, at) =>
        var ok := store.RequeueFailedWithdrawal(id);
        if ok {
          store.WriteAudit(L.AuditRow(at, operator, L.WithdrawalRequeued(id)));
        }
      case CreditDeposit(p) =>
        var _ := store.Credit(p);
      }
      vault := if n.Some? then n.value else vault;
    }

    method RunHandlers(es: seq<Step>)
      requires Valid()
      modifies this, store
      ensures Valid() && vault == Interleave(config, old(vault), es)
    {
      ghost var start := vault;
      for i := 0 to |es|
        invariant Valid() && vault == Interleave(config, start, es[..i])
      {
        assert es[..i + 1][..i] == es[..i];
        if Interleaves(es[i]) {
          Handle(es[i]);
        }
      }
      assert es[..|es|] == es;
    }

    /** await getMid(), then the look-up of the row. */
    method AskOracle(id: nat, env: RowEnv) returns (mid: Option<Mid>)
      requires Valid() && AtPc(vault, Taken(id, env.now)) && Stepped(config, vault, env).Some?
      modifies this, store
      ensures Valid() && vault == Stepped(config, old(vault), env).value
      ensures mid.Some? ==> AtPc(vault, Priced(id, env.now, mid.value))
      ensures mid.None? ==> AtPc(vault, if env.mid.Threw? then Raised(id) else NextRow)
    {
      ghost var v := vault;
      RunHandlers(env.others(8));
      InterleaveKeepsDrain(config, v, env.others(8));
      if env.mid.Threw? {
        mid := None;
      } else if env.mid.value.None? {
        store.FailWithdrawal(id, "oracle_unavailable", env.now);
        mid := None;
      } else if id < |store.withdrawals| && store.withdrawals[id].status.Processing? {
        mid := env.mid.value;
      } else {
        mid := None;
      }
      vault := Stepped(config, v, env).value;
    }

    /** await balances and position, then the arithmetic of the row. */
    method QuoteRow(id: nat, now: int, mid: Mid, env: RowEnv)
      returns (quote: Option<Quote>, basis: Basis, covered: bool)
      requires Valid() && AtPc(vault, Priced(id, now, mid)) && Stepped(config, vault, env).Some?
      modifies this, store
      ensures Valid() && vault == Stepped(config, old(vault), env).value
      ensures quote.None? ==> AtPc(vault, Raised(id))
      ensures quote.Some? ==> !env.balances.Threw? && basis.bal == env.balances.value.0
      ensures quote.Some? ==> AtPc(vault, if covered then Ready(id, now, basis, quote.value, basis.bal)
                                          else Short(id, now, basis, quote.value))
    {
      ghost var v := vault;
      RunHandlers(env.others(7));
      InterleaveKeepsDrain(config, v, env.others(7));
      covered := false;
      basis := Basis(mid, Balances(0, 0), 0.0, 0.0);
      if env.balances.Threw? || id >= |store.withdrawals| {
        quote := None;
      } else {
        var (bal, positionUsd) := env.balances.value;
        var w := store.withdrawals[id];
        var totalShares := store.TotalShares();
        basis := Basis(mid, bal, positionUsd, totalShares);
        quote := MakeQuote(mid, bal, config.reserve, positionUsd, totalShares, w.sharesBurned - w.feeShares);
        covered := quote.Some? && Covers(bal, config.reserve, quote.value.need);
      }
      vault := Stepped(config, v, env).value;
    }

    /** await partialClose, asked for what the wallet lacks. */
    method FreeLiquidity(id: nat, now: int, basis: Basis, quote: Quote, env: RowEnv)
      returns (raised: bool, asked: Tokens)
      requires Valid() && AtPc(vault, Short(id, now, basis, quote)) && Stepped(config, vault, env).Some?
      modifies this, store
      ensures Valid() && vault == Stepped(config, old(vault), env).value
      ensures AtPc(vault, if raised then Raised(id) else Freed(id, now, basis, quote))
      ensures asked == Shortfall(basis.bal, config.reserve, quote.need)
    {
      ghost var v := vault;
      var solAvailable := SpendableSol(basis.bal, config.reserve);
      asked := Tokens(
        if quote.need.solLamports > solAvailable then quote.need.solLamports - solAvailable else 0,
        if quote.need.bertRaw > basis.bal.bertRaw then quote.need.bertRaw - basis.bal.bertRaw else 0);
      RunHandlers(env.others(6));
      InterleaveKeepsDrain(config, v, env.others(6));
      raised := env.close.Threw?;
      vault := Stepped(config, v, env).value;
    }

    /** Re-read the balances and give up if they still fall short. */
    method Reread(id: nat, now: int, basis: Basis, quote: Quote, env: RowEnv) returns (covered: bool)
      requires Valid() && AtPc(vault, Freed(id, now, basis, quote)) && Stepped(config, vault, env).Some?
      modifies this, store
      ensures Valid() && vault == Stepped(config, old(vault), env).value
      ensures covered ==> !env.reread.Threw? && AtPc(vault, Ready(id, now, basis, quote, env.reread.value))
      ensures !covered ==> AtPc(vault, if env.reread.Threw? then Raised(id) else NextRow)
    {
      ghost var v := vault;
      RunHandlers(env.others(5));
      InterleaveKeepsDrain(config, v, env.others(5));
      covered := !env.reread.Threw? && Covers(env.reread.value, config.reserve, quote.need);
      if !covered && !env.reread.Threw? {
        store.FailWithdrawal(id, "reserves_insufficient", now);
      }
      vault := Stepped(config, v, env).value;
    }

    /** await executeTransfer; if it throws, nothing moved and the row fails. */
    method SendTransfer(id: nat, env: RowEnv) returns (sig: Option<L.Sig>)
      requires Valid() && vault.drain.Draining? && vault.drain.pc.Ready? && vault.drain.pc.id == id
          && vault.drain.pc.now == env.now
      requires Stepped(config, vault, env).Some?
      modifies this, store
      ensures Valid() && vault == Stepped(config, old(vault), env).value
      ensures AtPc(vault, if sig.Some? then Sent(id, env.now, old(vault).drain.pc.quote, sig.value) else NextRow)
    {
      ghost var v := vault;
      RunHandlers(env.others(4));
      InterleaveKeepsDrain(config, v, env.others(4));
      sig := if env.transfer.Threw? then None else Some(env.transfer.value);
      if sig.None? && id < |store.withdrawals| {
        var user := store.withdrawals[id].user;
        store.FailWithdrawal(id, env.reason, env.now);
        store.WriteAudit(L.AuditRow(env.now, user, L.WithdrawalFailed(id)));
      }
      vault := Stepped(config, v, env).value;
    }

    /** Record the signature, then burn the shares in one transaction. */
    method Record(id: nat, quote: Quote, sig: L.Sig, env: RowEnv) returns (raised: bool)
      requires Valid() && AtPc(vault, Sent(id, env.now, quote, sig)) && Inv(config, vault)
          && !config.handlerAuditMayThrow
      modifies this, store
      ensures Valid() && Inv(config, vault)
      ensures AtPc(vault, if raised then Raised(id) else NextRow)
      ensures ExecRow(config, vault, env) == ExecRow(config, old(vault), env)
          && vault.drain.todo == old(vault.drain.todo)
    {
      SteppedKeeps(config, vault, env);
      var marked := MarkSent(id, quote, sig, env);
      raised := false;
      if marked {
        SteppedKeeps(config, vault, env);
        var settled := Settle(id, quote, sig, env);
        raised := !settled;
      }
    }

    method AuditSyncFailure(id: nat, sig: L.Sig, now: int)
      modifies store
      ensures store.Contents() == L.WriteAudit(old(store.Contents()),
                L.AuditRow(now, if L.HasRow(old(store.Contents()), id) then old(store.withdrawals[id].user) else 0,
                           L.WithdrawalDbSyncFailed(id, sig)))
    {
      var user := if id < |store.withdrawals| then store.withdrawals[id].user else 0;
      store.WriteAudit(L.AuditRow(now, user, L.WithdrawalDbSyncFailed(id, sig)));
    }

    method MarkSent(id: nat, quote: Quote, sig: L.Sig, env: RowEnv) returns (marked: bool)
      requires Valid() && AtPc(vault, Sent(id, env.now, quote, sig)) && Stepped(config, vault, env).Some?
      modifies this, store
      ensures Valid() && vault == Stepped(config, old(vault), env).value
      ensures AtPc(vault, if marked then Marked(id, env.now, quote, sig) else NextRow)
    {
      ghost var v := vault;
      if env.markFaults {
        marked := false;
      } else {
        marked := store.MarkWithdrawalSent(id, sig);
      }
      if !marked {
        AuditSyncFailure(id, sig, env.now);
      }
      vault := Stepped(config, v, env).value;
    }

    method Settle(id: nat, quote: Quote, sig: L.Sig, env: RowEnv) returns (settled: bool)
      requires Valid() && AtPc(vault, Marked(id, env.now, quote, sig)) && Stepped(config, vault, env).Some?
      modifies this, store
      ensures Valid() && vault == Stepped(config, old(vault), env).value
      ensures AtPc(vault, if settled then NextRow else Raised(id))
    {
      ghost var v := vault;
      settled := store.SettleWithdrawal(id, sig, quote, env.now, env.settleFaults);
      if !settled {
        AuditSyncFailure(id, sig, env.now);
      }
      vault := Stepped(config, v, env).value;
    }
  
    /** The transfer and what follows it. */
    method Pay(id: nat, quote: Quote, env: RowEnv) returns (raised: bool)
      requires Valid() && vault.drain.Draining? && vault.drain.pc.Ready? && vault.drain.pc.id == id
          && vault.drain.pc.now == env.now
      requires vault.drain.pc.quote == quote && Inv(config, vault) && !config.handlerAuditMayThrow
      modifies this, store
      ensures Valid() && Inv(config, vault)
      ensures AtPc(vault, if raised then Raised(id) else NextRow)
      ensures ExecRow(config, vault, env) == ExecRow(config, old(vault), env)
          && vault.drain.todo == old(vault.drain.todo)
    {
      SteppedKeeps(config, vault, env);
      var sig := SendTransfer(id, env);
      raised := false;
      if sig.Some? {
        raised := Record(id, quote, sig.value, env);
      }
    }

    /** processOne; `raised` is an exception that escapes to the drain. */
    method ProcessOne(id: nat, env: RowEnv) returns (raised: bool)
      requires Valid() && AtPc(vault, Taken(id, env.now)) && Inv(config, vault) && !config.handlerAuditMayThrow
      modifies this, store
      ensures Valid() && Inv(config, vault)
      ensures AtPc(vault, if raised then Raised(id) else NextRow)
      ensures ExecRow(config, vault, env) == ExecRow(config, old(vault), env)
          && vault.drain.todo == old(vault.drain.todo)
    {
      SteppedKeeps(config, vault, env);
      var mid := AskOracle(id, env);
      if mid.None? {
        return env.mid.Threw?;
      }
      SteppedKeeps(config, vault, env);
      var quote, basis, covered := QuoteRow(id, env.now, mid.value, env);
      if quote.None? {
        return true;
      }
      if !covered {
        SteppedKeeps(config, vault, env);
        var asked;
        raised, asked := FreeLiquidity(id, env.now, basis, quote.value, env);
        if raised {
          return;
        }
        SteppedKeeps(config, vault, env);
        covered := Reread(id, env.now, basis, quote.value, env);
        if !covered {
          return env.reread.Threw?;
        }
      }
      raised := Pay(id, quote.value, env);
    }

    /** The catch of the drain loop: a row with a signature is left alone, any other is marked failed. */
    method Catch(id: nat, env: RowEnv)
      requires Valid() && AtPc(vault, Raised(id)) && Stepped(config, vault, env).Some?
      modifies this, store
      ensures Valid() && vault == Stepped(config, old(vault), env).value && AtPc(vault, NextRow)
    {
      ghost var v := vault;
      if !(id < |store.withdrawals| && store.withdrawals[id].txSig.Some?) {
        store.FailWithdrawal(id, "unexpected", env.catchAt);
      }
      vault := Stepped(config, v, env).value;
    }

    /** One turn of the drain loop. */
    method DrainRow(id: nat, env: RowEnv)
      requires Valid() && AtPc(vault, NextRow) && vault.drain.todo != [] && vault.drain.todo[0] == id
      requires Inv(config, vault) && !config.handlerAuditMayThrow
      modifies this, store
      ensures Valid() && Inv(config, vault) && AtPc(vault, NextRow)
      ensures vault == ExecRow(config, DrainStep(config, old(vault), TakeRow(env.now)).value, env)
      ensures vault.drain.todo == old(vault.drain.todo)[1..]
    {
      DrainKeepsInv(config, vault, TakeRow(env.now));
      store.SetWithdrawalProcessing(id);
      vault := DrainStep(config, vault, TakeRow(env.now)).value;
      var raised := ProcessOne(id, env);
      if raised {
        SteppedKeeps(config, vault, env);
        Catch(id, env);
      }
    }

    /** drain: the queued rows, in order, each to its end; no row's failure stops the next. */
    method Drain(envs: nat -> RowEnv)
      requires Valid() && vault.drain.Idle? && Inv(config, vault) && !config.handlerAuditMayThrow
      modifies this, store
      ensures Valid() && Inv(config, vault)
      ensures vault == ExecRows(config, DrainStep(config, old(vault), BeginDrain).value, envs)
      ensures AtPc(vault, NextRow) && vault.drain.todo == []
    {
      DrainKeepsInv(config, vault, BeginDrain);
      var queued := store.ListWithdrawalsByStatus(L.Queued);
      vault := DrainStep(config, vault, BeginDrain).value;
      ghost var start := vault;
      for i := 0 to |queued|
        invariant Valid() && Inv(config, vault) && AtPc(vault, NextRow)
        invariant vault.drain.todo == queued[i..]
        invariant ExecRows(config, vault, envs) == ExecRows(config, start, envs)
      {
        DrainRow(queued[i], envs(queued[i]));
      }
    }
  }
}
