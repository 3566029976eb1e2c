/**
  What each payout is computed from and what its settlement writes (src/vault/withdrawalExecutor.ts:74-104,180-207),
  over every run of the payout protocol: a transfer pays the net shares of its own row at the pool's value per share,
  the completed row records what was paid, and the snapshot keeps the fee in the pool.
 */
module PayoutQuotes {
  import opened Prelude
  import opened ShareMath
  import opened Ledger
  import opened PayoutProtocol
  import PoolValue

  /** What a row's net shares are worth. */
  function Owes(w: Withdrawal, navPerShare: real): real {
    (w.sharesBurned - w.feeShares) * navPerShare
  }

  /** The spendable tokens and the position, over the live shares; one dollar a share when there are none. */
  ghost predicate FairNav(c: Config, b: Basis, navPerShare: real) {
    if b.totalShares > 0.0
    then navPerShare * b.totalShares ==
           SolWorth(SpendableSol(b.bal, c.reserve), b.mid) + BertWorth(b.bal.bertRaw, b.mid) + b.positionUsd
    else navPerShare == 1.0
  }

  ghost predicate QuoteOk(c: Config, w: Withdrawal, b: Basis, q: Quote) {
    && q.usdOwed == Owes(w, q.navPerShare) && FairNav(c, b, q.navPerShare)
    && MakeQuote(b.mid, b.bal, c.reserve, b.positionUsd, b.totalShares, w.sharesBurned - w.feeShares) == Some(q)
  }

  /** The row's transfer has this signature and this quote. */
  ghost predicate PaidAs(chain: seq<Transfer>, id: nat, sig: Sig, q: Quote) {
    exists k :: 0 <= k < |chain| && chain[k].id == id && chain[k].sig == sig && chain[k].quote == q
  }

  ghost predicate TransferQuoted(c: Config, t: Transfer, ws: seq<Withdrawal>) {
    t.id < |ws| && QuoteOk(c, ws[t.id], t.basis, t.quote)
  }

  /** A completed row records its transfer's signature, amounts and value per share. */
  ghost predicate RecordOk(w: Withdrawal, id: nat, chain: seq<Transfer>) {
    w.status.Completed? ==>
      exists k :: 0 <= k < |chain| && chain[k].id == id && w.txSig == Some(chain[k].sig)
                  && w.payout == Some(Payout(chain[k].quote.need, chain[k].quote.navPerShare))
  }

  ghost predicate PcQuoted(c: Config, v: Vault, pc: Pc) {
    match pc
    case Short(id, _, b, q) => HasRow(v.tables, id) && QuoteOk(c, v.tables.withdrawals[id], b, q)
    case Freed(id, _, b, q) => HasRow(v.tables, id) && QuoteOk(c, v.tables.withdrawals[id], b, q)
    case Ready(id, _, b, q, _) => HasRow(v.tables, id) && QuoteOk(c, v.tables.withdrawals[id], b, q)
    case Sent(id, _, q, sig) => PaidAs(v.chain, id, sig, q)
    case Marked(id, _, q, sig) => PaidAs(v.chain, id, sig, q)
    case _ => true
  }

  ghost predicate QuotesOk(c: Config, v: Vault) {
    && (forall k :: 0 <= k < |v.chain| ==> TransferQuoted(c, v.chain[k], v.tables.withdrawals))
    && (forall id :: 0 <= id < |v.tables.withdrawals| ==> RecordOk(v.tables.withdrawals[id], id, v.chain))
    && (v.drain.Draining? ==> PcQuoted(c, v, v.drain.pc))
  }

  // ----- a quote is fair

  lemma {:induction false} QuoteIsFair(c: Config, b: Basis, net: real)
    requires MakeQuote(b.mid, b.bal, c.reserve, b.positionUsd, b.totalShares, net).Some?
    ensures var q := MakeQuote(b.mid, b.bal, c.reserve, b.positionUsd, b.totalShares, net).value;
            q.usdOwed == net * q.navPerShare && FairNav(c, b, q.navPerShare)
  {
    var nav := VaultNav(b.mid, b.bal, c.reserve, b.positionUsd);
    QuoteParts(ComputeNavPerShare(nav.totalUsd, b.totalShares), nav.solFrac, b.mid, net);
    FreeWorth(b.bal, c.reserve, b.mid, b.positionUsd);
    hide QuoteAt, VaultNav, SolWorth, BertWorth;
    if b.totalShares > 0.0 {
      Quotient(nav.totalUsd, b.totalShares);
    }
  }

  lemma {:induction false} QuoteParts(navPerShare: real, solFrac: real, mid: Mid, net: real)
    ensures var q := QuoteAt(navPerShare, solFrac, mid, net);
            q.Some? ==> q.value.navPerShare == navPerShare && q.value.usdOwed == net * navPerShare
                        && mid.solUsd > 0.0 && mid.bertUsd > 0.0
  {
    hide Units;
  }

  lemma {:induction false} Quotient(v: real, t: real)
    requires t > 0.0
    ensures v / t * t == v
  {
  }

  // ----- every step keeps it

  /** Claims stay, transfers stay, and a completed row stays as it is. */
  ghost predicate Carries(v: Vault, r: Vault) {
    && |v.tables.withdrawals| <= |r.tables.withdrawals|
    && (forall id :: 0 <= id < |v.tables.withdrawals| ==>
          && SameClaim(v.tables.withdrawals[id], r.tables.withdrawals[id])
          && (v.tables.withdrawals[id].status.Completed? ==> r.tables.withdrawals[id] == v.tables.withdrawals[id]))
    && |v.chain| <= |r.chain| && r.chain[..|v.chain|] == v.chain
  }

  lemma {:induction false} HandlerCarries(c: Config, v: Vault, e: Step)
    requires HandlerStep(c, v, e).Some?
    ensures var r := HandlerStep(c, v, e).value; Carries(v, r) && r.chain == v.chain
    ensures var r := HandlerStep(c, v, e).value;
            && (r.drain == v.drain || r.drain.Idle?)
            && forall id :: 0 <= id < |r.tables.withdrawals| && r.tables.withdrawals[id].status.Completed? ==>
                 id < |v.tables.withdrawals| && v.tables.withdrawals[id].status.Completed?
  {
    hide DepositUsd, Upsert, AddShares, Latest, TotalShares;
    if e.CreditDeposit? {
      CreditEffect(v.tables, e.params);
      hide Credit;
    }
  }

  lemma {:induction false} DrainCarries(c: Config, v: Vault, e: Step)
    requires Inv(c, v) && DrainStep(c, v, e).Some?
    ensures Carries(v, DrainStep(c, v, e).value)
    ensures !e.SettleSucceeds? ==>
              var r := DrainStep(c, v, e).value;
              |r.tables.withdrawals| == |v.tables.withdrawals|
              && forall id :: 0 <= id < |r.tables.withdrawals| && r.tables.withdrawals[id].status.Completed? ==>
                   v.tables.withdrawals[id].status.Completed?
  {
    hide DrainStep, SharesOk, SnapshotsOk, DestinationsOk, RowsOk, ChainOk;
    var r := DrainStep(c, v, e).value;
    ChainGrows(c, v, e);
    if e.SettleSucceeds? {
      SettledRow(c, v);
      SettleStep(c, v);
      hide Settle;
    } else {
      DrainEdits(c, v, e);
    }
    if !e.SettleSucceeds? && r.tables.withdrawals != v.tables.withdrawals {
      var id: nat :| RowEdit(v.tables.withdrawals, r.tables.withdrawals, id)
                     && !v.tables.withdrawals[id].status.Completed? && !r.tables.withdrawals[id].status.Completed?;
    }
  }

  /** Old transfers and records stay right; what is new has to be. */
  lemma {:induction false} CarriedQuotes(c: Config, v: Vault, r: Vault)
    requires QuotesOk(c, v) && Carries(v, r)
    requires forall k :: |v.chain| <= k < |r.chain| ==> TransferQuoted(c, r.chain[k], r.tables.withdrawals)
    requires forall id :: 0 <= id < |r.tables.withdrawals| && r.tables.withdrawals[id].status.Completed? ==>
               (id < |v.tables.withdrawals| && v.tables.withdrawals[id].status.Completed?)
               || RecordOk(r.tables.withdrawals[id], id, r.chain)
    requires r.drain.Draining? ==> PcQuoted(c, r, r.drain.pc)
    ensures QuotesOk(c, r)
  {
    assert forall k :: 0 <= k < |v.chain| ==> r.chain[k] == r.chain[..|v.chain|][k];
    hide FairNav, MakeQuote;
    forall k | 0 <= k < |r.chain| ensures TransferQuoted(c, r.chain[k], r.tables.withdrawals) {
      if k < |v.chain| {
        assert TransferQuoted(c, v.chain[k], v.tables.withdrawals);
      }
    }
    forall id | 0 <= id < |r.tables.withdrawals| ensures RecordOk(r.tables.withdrawals[id], id, r.chain) {
      if r.tables.withdrawals[id].status.Completed? && id < |v.tables.withdrawals|
         && v.tables.withdrawals[id].status.Completed? {
        assert RecordOk(v.tables.withdrawals[id], id, v.chain);
        var w := v.tables.withdrawals[id];
        var k :| 0 <= k < |v.chain| && v.chain[k].id == id && w.txSig == Some(v.chain[k].sig)
                 && w.payout == Some(Payout(v.chain[k].quote.need, v.chain[k].quote.navPerShare));
        assert r.chain[k] == v.chain[k];
      }
    }
  }

  /** The place in hand stays right when claims and transfers stay. */
  lemma {:induction false} CarriedPc(c: Config, v: Vault, r: Vault, pc: Pc)
    requires PcQuoted(c, v, pc) && Carries(v, r)
    ensures PcQuoted(c, r, pc)
  {
    hide FairNav, MakeQuote;
    if pc.Sent? || pc.Marked? {
      var k :| 0 <= k < |v.chain| && v.chain[k].id == pc.id && v.chain[k].sig == pc.sig && v.chain[k].quote == pc.quote;
      assert r.chain[k] == r.chain[..|v.chain|][k];
    }
  }

  lemma {:induction false} HandlerKeepsQuotes(c: Config, v: Vault, e: Step)
    requires QuotesOk(c, v) && HandlerStep(c, v, e).Some?
    ensures QuotesOk(c, HandlerStep(c, v, e).value)
  {
    HandlerCarries(c, v, e);
    hide HandlerStep;
    var r := HandlerStep(c, v, e).value;
    if r.drain.Draining? {
      CarriedPc(c, v, r, r.drain.pc);
    }
    CarriedQuotes(c, v, r);
  }

  lemma {:induction false} QuoteStep(c: Config, v: Vault, bal: Balances, positionUsd: real)
    requires v.drain.Draining? && v.drain.pc.Priced? && DrainStep(c, v, BalancesAnswer(bal, positionUsd)).Some?
    ensures var r := DrainStep(c, v, BalancesAnswer(bal, positionUsd)).value;
            r.drain.Draining? && r.chain == v.chain && PcQuoted(c, r, r.drain.pc)
  {
    hide MakeQuote, TotalShares, FairNav, Covers;
    var w := v.tables.withdrawals[v.drain.pc.id];
    var b := Basis(v.drain.pc.mid, bal, positionUsd, TotalShares(v.tables.shares));
    if MakeQuote(b.mid, b.bal, c.reserve, b.positionUsd, b.totalShares, w.sharesBurned - w.feeShares).Some? {
      QuoteIsFair(c, b, w.sharesBurned - w.feeShares);
    }
  }

  lemma {:induction false} TransferStep(c: Config, v: Vault, sig: Sig)
    requires v.drain.Draining? && v.drain.pc.Ready? && DrainStep(c, v, TransferLands(sig)).Some?
    requires PcQuoted(c, v, v.drain.pc)
    ensures var r := DrainStep(c, v, TransferLands(sig)).value;
            && r.drain.Draining? && PcQuoted(c, r, r.drain.pc) && |r.chain| == |v.chain| + 1
            && TransferQuoted(c, r.chain[|v.chain|], r.tables.withdrawals)
  {
    hide FairNav, MakeQuote;
    var r := DrainStep(c, v, TransferLands(sig)).value;
    var pc := v.drain.pc;
    assert r.chain[|v.chain|].id == pc.id && r.chain[|v.chain|].sig == sig && r.chain[|v.chain|].quote == pc.quote;
  }

  lemma {:induction false} SettlementRecords(c: Config, v: Vault)
    requires Inv(c, v) && QuotesOk(c, v) && v.drain.Draining? && v.drain.pc.Marked?
    ensures DrainStep(c, v, SettleSucceeds).Some?
    ensures var r := DrainStep(c, v, SettleSucceeds).value;
            && r.drain.Draining? && r.drain.pc.NextRow? && r.chain == v.chain
            && |r.tables.withdrawals| == |v.tables.withdrawals|
            && RecordOk(r.tables.withdrawals[v.drain.pc.id], v.drain.pc.id, r.chain)
            && forall id :: 0 <= id < |r.tables.withdrawals| && id != v.drain.pc.id ==>
                 r.tables.withdrawals[id] == v.tables.withdrawals[id]
  {
    SettleStep(c, v);
    var pc := v.drain.pc;
    assert PaidAs(v.chain, pc.id, pc.sig, pc.quote);
    hide DrainStep, TotalShares, Upsert, AddShares, Latest;
  }

  /** The other steps stay at a quoted place or leave it. */
  lemma {:induction false} OtherStep(c: Config, v: Vault, e: Step)
    requires v.drain.Draining? && DrainStep(c, v, e).Some? && PcQuoted(c, v, v.drain.pc)
    requires !e.BalancesAnswer? && !e.TransferLands? && !e.SettleSucceeds?
    ensures var r := DrainStep(c, v, e).value; r.chain == v.chain && (r.drain.Draining? ==> PcQuoted(c, v, r.drain.pc))
  {
    hide MakeQuote, TotalShares, FairNav, Covers, Settle, Latest, QuoteOk;
  }

  lemma {:induction false} DrainBegins(c: Config, v: Vault, e: Step)
    requires v.drain.Idle? && DrainStep(c, v, e).Some?
    ensures var r := DrainStep(c, v, e).value; r.chain == v.chain && (r.drain.Draining? ==> r.drain.pc.NextRow?)
    ensures !e.SettleSucceeds?
  {
  }

  lemma {:induction false} SettleKeepsQuotes(c: Config, v: Vault)
    requires Inv(c, v) && QuotesOk(c, v) && DrainStep(c, v, SettleSucceeds).Some?
    ensures QuotesOk(c, DrainStep(c, v, SettleSucceeds).value)
  {
    DrainCarries(c, v, SettleSucceeds);
    SettledRow(c, v);
    SettlementRecords(c, v);
    hide DrainStep, Inv, RecordOk, TransferQuoted;
    CarriedQuotes(c, v, DrainStep(c, v, SettleSucceeds).value);
  }

  lemma {:induction false} StepPlaces(c: Config, v: Vault, e: Step)
    requires DrainStep(c, v, e).Some? && v.drain.Draining?
    ensures e.BalancesAnswer? ==> v.drain.pc.Priced?
    ensures e.TransferLands? ==> v.drain.pc.Ready?
  {
    hide MakeQuote, Covers, Settle, TotalShares, Latest;
  }

  lemma {:induction false} DrainKeepsQuotes(c: Config, v: Vault, e: Step)
    requires Inv(c, v) && QuotesOk(c, v) && DrainStep(c, v, e).Some?
    ensures QuotesOk(c, DrainStep(c, v, e).value)
  {
    hide DrainStep, Inv, PcQuoted, RecordOk, TransferQuoted;
    var r := DrainStep(c, v, e).value;
    if e.SettleSucceeds? {
      SettleKeepsQuotes(c, v);
    } else {
      DrainCarries(c, v, e);
      if v.drain.Idle? {
        DrainBegins(c, v, e);
        NextRowQuoted(c, r);
      } else {
        StepPlaces(c, v, e);
        if e.BalancesAnswer? {
          QuoteStep(c, v, e.bal, e.positionUsd);
        } else if e.TransferLands? {
          TransferStep(c, v, e.sig);
        } else {
          OtherStep(c, v, e);
          if r.drain.Draining? {
            CarriedPc(c, v, r, r.drain.pc);
          }
        }
      }
      CarriedQuotes(c, v, r);
    }
  }

  lemma {:induction false} NextRowQuoted(c: Config, v: Vault)
    ensures v.drain.Draining? && v.drain.pc.NextRow? ==> PcQuoted(c, v, v.drain.pc)
  {
  }

  lemma {:induction false} RunKeepsQuotes(c: Config, v: Vault, es: seq<Step>)
    requires Inv(c, v) && QuotesOk(c, v) && !c.handlerAuditMayThrow
    ensures QuotesOk(c, Run(c, v, es))
  {
    hide Inv, QuotesOk, HandlerStep, DrainStep;
    if es != [] {
      var before, e := Run(c, v, es[..|es| - 1]), es[|es| - 1];
      RunKeepsQuotes(c, v, es[..|es| - 1]);
      RunKeepsInv(c, v, es[..|es| - 1]);
      if HandlerStep(c, before, e).Some? {
        HandlerKeepsQuotes(c, before, e);
      } else if DrainStep(c, before, e).Some? {
        DrainKeepsQuotes(c, before, e);
      }
    }
  }

  lemma {:induction false} StartQuoted(c: Config, operator: User, initialNavUsd: real, now: int)
    ensures QuotesOk(c, Start(operator, initialNavUsd, now))
  {
  }

  // ----- the promises, over every run of a bootstrapped vault

  /**
    Every landed transfer owes the net shares of its own row, and of nothing else, at the value per share that the
    spendable tokens and the position had over the live shares when the row was quoted.
   */
  lemma {:induction false} TransfersPayTheNetShares(c: Config, operator: User, initialNavUsd: real, now: int,
                                                    es: seq<Step>, k: nat)
    requires !c.handlerAuditMayThrow
    requires k < |Run(c, Start(operator, initialNavUsd, now), es).chain|
    ensures var v := Run(c, Start(operator, initialNavUsd, now), es);
            var t := v.chain[k];
            && HasRow(v.tables, t.id)
            && var w := v.tables.withdrawals[t.id];
            && t.quote.usdOwed == (w.sharesBurned - w.feeShares) * t.quote.navPerShare
            && PaysWithinDust(t.quote.need, t.quote.usdOwed, t.basis.mid)
            && FairNav(c, t.basis, t.quote.navPerShare)
  {
    hide Run, FairNav, PaysWithinDust;
    var start := Start(operator, initialNavUsd, now);
    StartInv(c, operator, initialNavUsd, now);
    StartQuoted(c, operator, initialNavUsd, now);
    RunKeepsQuotes(c, start, es);
    TransfersCovered(c, operator, initialNavUsd, now, es, k);
    assert TransferQuoted(c, Run(c, start, es).chain[k], Run(c, start, es).tables.withdrawals);
  }

  /**
    Every landed transfer is a row of the pool model: its amounts and its value per share are those that the pool read
    for its quote has for the row's claim, so what is proved of a drain's value per share is about these transfers.
   */
  lemma {:induction false} TransfersFollowThePool(c: Config, operator: User, initialNavUsd: real, now: int,
                                                  es: seq<Step>, k: nat, freed: Balances, ending: PoolValue.Ending)
    requires !c.handlerAuditMayThrow
    requires k < |Run(c, Start(operator, initialNavUsd, now), es).chain|
    ensures var v := Run(c, Start(operator, initialNavUsd, now), es);
            var t := v.chain[k];
            && HasRow(v.tables, t.id)
            && var w, m := v.tables.withdrawals[t.id], PoolValue.Market(t.basis.mid, c.reserve);
            && var p := PoolValue.Pool(t.basis.bal, t.basis.positionUsd, t.basis.totalShares);
            && t.quote.need == PoolValue.RowNeed(m, p, PoolValue.RowRun(w.sharesBurned, w.feeShares, freed, ending))
            && t.quote.navPerShare == PoolValue.NavPerShare(m, p)
  {
    hide Run, VaultNav, QuoteAt;
    var start := Start(operator, initialNavUsd, now);
    StartInv(c, operator, initialNavUsd, now);
    StartQuoted(c, operator, initialNavUsd, now);
    RunKeepsQuotes(c, start, es);
    var v := Run(c, start, es);
    var t := v.chain[k];
    assert TransferQuoted(c, t, v.tables.withdrawals);
    var w, nav := v.tables.withdrawals[t.id], VaultNav(t.basis.mid, t.basis.bal, c.reserve, t.basis.positionUsd);
    QuoteParts(ComputeNavPerShare(nav.totalUsd, t.basis.totalShares), nav.solFrac, t.basis.mid,
               w.sharesBurned - w.feeShares);
  }

  /** Every completed row records the signature, the amounts and the value per share of its transfer. */
  lemma {:induction false} CompletedRowsRecordPayments(c: Config, operator: User, initialNavUsd: real, now: int,
                                                       es: seq<Step>, id: nat)
    requires !c.handlerAuditMayThrow
    requires id < |Run(c, Start(operator, initialNavUsd, now), es).tables.withdrawals|
    requires Run(c, Start(operator, initialNavUsd, now), es).tables.withdrawals[id].status.Completed?
    ensures var v := Run(c, Start(operator, initialNavUsd, now), es);
            var w := v.tables.withdrawals[id];
            exists k :: 0 <= k < |v.chain| && v.chain[k].id == id && w.txSig == Some(v.chain[k].sig)
                        && w.payout == Some(Payout(v.chain[k].quote.need, v.chain[k].quote.navPerShare))
  {
    hide Run;
    var start := Start(operator, initialNavUsd, now);
    StartInv(c, operator, initialNavUsd, now);
    StartQuoted(c, operator, initialNavUsd, now);
    RunKeepsQuotes(c, start, es);
    var v := Run(c, start, es);
    assert RecordOk(v.tables.withdrawals[id], id, v.chain);
  }

  // ----- what a settlement writes

  lemma {:induction false} MarkedOwes(c: Config, v: Vault)
    requires Inv(c, v) && QuotesOk(c, v) && v.drain.Draining? && v.drain.pc.Marked?
    ensures HasRow(v.tables, v.drain.pc.id)
    ensures var q := v.drain.pc.quote; q.usdOwed == Owes(v.tables.withdrawals[v.drain.pc.id], q.navPerShare)
  {
    var pc := v.drain.pc;
    var k :| 0 <= k < |v.chain| && v.chain[k].id == pc.id && v.chain[k].sig == pc.sig && v.chain[k].quote == pc.quote;
    assert TransferQuoted(c, v.chain[k], v.tables.withdrawals);
  }

  lemma {:induction false} SnapshotValue(before: real, burned: real, fee: real, nav: real)
    ensures (before - (burned - fee)) * nav + (burned - fee) * nav == before * nav
  {
  }

  /** The value a settlement writes and the USD it paid add up to all shares at the row's value per share. */
  lemma {:induction false} SettlementWritesTheRest(c: Config, v: Vault)
    requires Inv(c, v) && QuotesOk(c, v) && v.drain.Draining? && v.drain.pc.Marked?
    ensures DrainStep(c, v, SettleSucceeds).Some?
    ensures var r, q := DrainStep(c, v, SettleSucceeds).value, v.drain.pc.quote;
            r.lastSnapshot.totalValueUsd + q.usdOwed == TotalShares(v.tables.shares) * q.navPerShare
  {
    hide DrainStep, Settle, Settled, TotalShares, QuotesOk, DrainOk, Owes, RowsOk, ChainOk, SharesOk, SnapshotsOk,
      DestinationsOk;
    SettleStep(c, v);
    MarkedOwes(c, v);
    var pc := v.drain.pc;
    SettledValue(v, Settle(v.tables, pc.id, pc.sig, pc.quote, pc.now).value);
  }

  lemma {:induction false} SettledValue(v: Vault, t: Tables)
    requires v.drain.Draining? && v.drain.pc.Marked? && HasRow(v.tables, v.drain.pc.id)
    ensures var w, nav := v.tables.withdrawals[v.drain.pc.id], v.drain.pc.quote.navPerShare;
            Settled(v, t).lastSnapshot.totalValueUsd + Owes(w, nav) == TotalShares(v.tables.shares) * nav
  {
    hide TotalShares, Latest;
    var w := v.tables.withdrawals[v.drain.pc.id];
    SnapshotValue(TotalShares(v.tables.shares), w.sharesBurned, w.feeShares, v.drain.pc.quote.navPerShare);
  }

  lemma {:induction false} Surplus(value: real, nav: real, after: real, fee: real)
    requires 0.0 < after && 0.0 < nav && 0.0 <= fee && value == nav * after + fee * nav
    ensures nav <= value / after && (nav == value / after <==> fee == 0.0)
  {
    assert value / after == nav + fee * nav / after;
    if fee > 0.0 {
      assert fee * nav > 0.0;
      assert fee * nav / after > 0.0;
    } else {
      assert fee * nav == 0.0;
    }
  }

  lemma {:induction false} FeeStays(value: real, before: real, w: Withdrawal, nav: real)
    requires value + Owes(w, nav) == before * nav && 0.0 <= w.feeShares && 0.0 < nav && 0.0 < before - w.sharesBurned
    ensures var seen := ComputeNavPerShare(value, before - w.sharesBurned);
            nav <= seen && (nav == seen <==> w.feeShares == 0.0)
  {
    var after := before - w.sharesBurned;
    assert value == nav * after + w.feeShares * nav;
    Surplus(value, nav, after, w.feeShares);
  }

  /**
    After a settlement whose snapshot is the latest, readers see at least the row's value per share, and see exactly it
    if and only if the row left no fee.
   */
  lemma {:induction false} SettlementKeepsTheFee(c: Config, v: Vault)
    requires Inv(c, v) && QuotesOk(c, v) && v.drain.Draining? && v.drain.pc.Marked?
    requires NotBefore(v.tables.snapshots, v.drain.pc.now)
    requires var w := v.tables.withdrawals[v.drain.pc.id]; 0.0 <= w.feeShares && 0.0 < v.drain.pc.quote.navPerShare
    requires 0.0 < TotalShares(v.tables.shares) - v.tables.withdrawals[v.drain.pc.id].sharesBurned
    ensures DrainStep(c, v, SettleSucceeds).Some?
    ensures var r, nav := DrainStep(c, v, SettleSucceeds).value, v.drain.pc.quote.navPerShare;
            && nav <= SnapshotNav(r.tables)
            && (nav == SnapshotNav(r.tables) <==> v.tables.withdrawals[v.drain.pc.id].feeShares == 0.0)
  {
    hide DrainStep, TotalShares, Latest, NotBefore, QuotesOk, Owes, ComputeNavPerShare, DrainOk, SnapshotsOk, RowsOk,
      ChainOk, SharesOk, DestinationsOk;
    MarkedOwes(c, v);
    SettlementWritesTheRest(c, v);
    SettleIsLatestIff(c, v);
    SettlementBurns(c, v);
    var w, r := v.tables.withdrawals[v.drain.pc.id], DrainStep(c, v, SettleSucceeds).value;
    FeeStays(r.lastSnapshot.totalValueUsd, TotalShares(v.tables.shares), w, v.drain.pc.quote.navPerShare);
  }

  lemma {:induction false} SettlementBurns(c: Config, v: Vault)
    requires DrainOk(c, v) && v.drain.Draining? && v.drain.pc.Marked?
    ensures HasRow(v.tables, v.drain.pc.id) && DrainStep(c, v, SettleSucceeds).Some?
    ensures TotalShares(DrainStep(c, v, SettleSucceeds).value.tables.shares) ==
              TotalShares(v.tables.shares) - v.tables.withdrawals[v.drain.pc.id].sharesBurned
  {
    SettleStep(c, v);
    var pc := v.drain.pc;
    var w := v.tables.withdrawals[pc.id];
    SettleRows(v.tables, pc.id, pc.sig, pc.quote, pc.now);
    hide DrainStep, Settle, TotalShares, AddShares;
    AddSharesEffect(v.tables.shares, w.user, -w.sharesBurned);
  }
}
