/** Where the payout protocol's promises stop: runs that break them once an assumption is dropped. */
module PayoutLimits {
  import opened Prelude
  import opened ShareMath
  import opened Ledger
  import Whitelist
  import opened PayoutProtocol

  lemma {:induction false} RunMore(c: Config, v: Vault, es: seq<Step>, e: Step)
    requires Next(c, Run(c, v, es), e).Some?
    ensures Run(c, v, es + [e]) == Next(c, Run(c, v, es), e).value
  {
    assert (es + [e])[..|es|] == es;
  }

  lemma {:induction false} ForwardMore(es: seq<Step>, from: int, to: int, e: Step, later: int)
    requires ClockForward(es, from, to) && to <= later && (ClockOf(e).Some? ==> to <= ClockOf(e).value <= later)
    ensures ClockForward(es + [e], from, later)
  {
  }

  /** A vault with one address active for the operator, user 1, and its first steps. */
  function Enrolled(): Vault {
    Start(1, 100.0, 0).(whitelist := Whitelist.State({1}, map[1 := "A"],
                          [Whitelist.Change(1, None, "A", 0, 0, Whitelist.Activated)],
                            [Whitelist.Activation(1, "A", 0, 0)]))
  }

  const FIRST := [WhitelistMove(Whitelist.AddUser(1)), WhitelistMove(Whitelist.Request(1, "A", 0))]

  lemma {:induction false} EnrolledIsReached(c: Config)
    ensures Run(c, Start(1, 100.0, 0), FIRST) == Enrolled() && ClockForward(FIRST, 0, 0)
  {
    var v := Start(1, 100.0, 0);
    var a, b := FIRST[0], FIRST[1];
    RunMore(c, v, [], a);
    assert [] + [a] == [a];
    RunMore(c, v, [a], b);
    assert [a] + [b] == FIRST;
    assert Next(c, Run(c, v, [a]), b).value == Enrolled();
  }

  lemma HundredDollars(reserve: nat)
    ensures var nav := VaultNav(Mid(1.0, 1.0), Balances(reserve + 100000000000, 0), reserve, 0.0);
            nav.totalUsd == 100.0 && nav.solFrac == 1.0
  {
    assert SpendableSol(Balances(reserve + 100000000000, 0), reserve) == 100000000000;
  }

  lemma OneDollarSplit()
    ensures QuoteAt(1.0, 1.0, Mid(1.0, 1.0), 1.0) == Some(Quote(1.0, 1.0, Tokens(1000000000, 0)))
  {
    assert SolPart(1.0, 1.0) == 1.0 && BertPart(1.0, 1.0) == 0.0;
    assert Units(1.0, 1.0, SOL_UNIT) == 1000000000;
    assert Units(0.0, 1.0, BERT_UNIT) == 0;
  }

  /** One dollar owed from a pool of 100 dollars in SOL: one SOL at a dollar. */
  lemma OneDollarQuote(reserve: nat)
    ensures MakeQuote(Mid(1.0, 1.0), Balances(reserve + 100000000000, 0), reserve, 0.0, 100.0, 1.0)
         == Some(Quote(1.0, 1.0, Tokens(1000000000, 0)))
  {
    hide VaultNav, QuoteAt;
    HundredDollars(reserve);
    assert ComputeNavPerShare(100.0, 100.0) == 1.0;
    OneDollarSplit();
  }

  /** One queued row for one share, in a pool of 100 shares. */
  ghost predicate OneQueued(v: Vault) {
    && v.drain.Idle? && |v.tables.withdrawals| == 1
    && v.tables.withdrawals[0].status.Queued? && v.tables.withdrawals[0].txSig.None?
    && v.tables.withdrawals[0].sharesBurned == 1.0 && v.tables.withdrawals[0].feeShares == 0.0
    && TotalShares(v.tables.shares) == 100.0 && v.tables.deposits == []
  }

  /** The drain holds that row, its only one, at `pc`. */
  ghost predicate InHand(v: Vault, pc: Pc) {
    && |v.tables.withdrawals| == 1 && v.tables.withdrawals[0].status.Processing? && v.tables.withdrawals[0].txSig.None?
    && v.tables.withdrawals[0].sharesBurned == 1.0 && v.tables.withdrawals[0].feeShares == 0.0
    && TotalShares(v.tables.shares) == 100.0 && v.tables.deposits == []
    && v.drain == Draining([], pc)
  }

  const ONE_DOLLAR := Quote(1.0, 1.0, Tokens(1000000000, 0))
  const MID := Mid(1.0, 1.0)

  function Wallet(c: Config): Balances {
    Balances(c.reserve + 100000000000, 0)
  }

  function ReadyToPay(c: Config, t: int): Pc {
    Ready(0, t, Basis(MID, Wallet(c), 0.0, 100.0), ONE_DOLLAR, Wallet(c))
  }

  lemma {:induction false} Begins(c: Config, v: Vault)
    requires OneQueued(v)
    ensures Next(c, v, BeginDrain) == Some(v.(drain := Draining([0], NextRow)))
  {
    assert IdsByStatus(v.tables.withdrawals, Queued, 1) == [0] by {
      assert IdsByStatus(v.tables.withdrawals, Queued, 0) == [];
    }
  }

  lemma {:induction false} Takes(c: Config, v: Vault, t: int)
    requires OneQueued(v)
    ensures var n := Next(c, v.(drain := Draining([0], NextRow)), TakeRow(t));
            n.Some? && InHand(n.value, Taken(0, t)) && n.value.chain == v.chain
  {
    hide TotalShares;
  }

  lemma {:induction false} Prices(c: Config, v: Vault, t: int)
    requires InHand(v, Taken(0, t))
    ensures var n := Next(c, v, OracleAnswers(Some(MID)));
            n.Some? && InHand(n.value, Priced(0, t, MID)) && n.value.chain == v.chain
  {
    hide TotalShares;
  }

  lemma {:induction false} Quotes(c: Config, v: Vault, t: int)
    requires InHand(v, Priced(0, t, MID))
    ensures var n := Next(c, v, BalancesAnswer(Wallet(c), 0.0));
            n.Some? && InHand(n.value, ReadyToPay(c, t)) && n.value.chain == v.chain
  {
    OneDollarQuote(c.reserve);
    hide TotalShares;
    hide MakeQuote;
  }

  lemma {:induction false} Lands(c: Config, v: Vault, sig: Sig, t: int)
    requires InHand(v, ReadyToPay(c, t))
    ensures var n := Next(c, v, TransferLands(sig));
            && n.Some? && InHand(n.value, Sent(0, t, ONE_DOLLAR, sig))
            && |n.value.chain| == |v.chain| + 1 && n.value.chain[..|v.chain|] == v.chain
               && n.value.chain[|v.chain|].id == 0
  {
    hide TotalShares;
  }

  lemma {:induction false} Faults(c: Config, v: Vault, sig: Sig, t: int)
    requires InHand(v, Sent(0, t, ONE_DOLLAR, sig)) && c.handlerAuditMayThrow
    ensures var n := Next(c, v, MarkSentFaultsUnaudited);
            n.Some? && InHand(n.value, Raised(0)) && n.value.chain == v.chain
  {
    hide TotalShares;
  }

  /** The drain's catch sees no signature, marks the row failed, and the operator queues it again. */
  lemma {:induction false} Requeues(c: Config, v: Vault, t: int)
    requires InHand(v, Raised(0))
    ensures var a := Next(c, v, CatchHandles(t + 1));
            && a.Some?
            && var b := Next(c, a.value, EndDrain);
            && b.Some?
            && var d := Next(c, b.value, Requeue(0, 1, t + 2));
            && d.Some? && OneQueued(d.value) && d.value.chain == v.chain
  {
    hide TotalShares;
  }

  lemma {:induction false} Appends(c: Config, v0: Vault, es: seq<Step>, e: Step, from: int, to: int, later: int)
    returns (more: seq<Step>)
    requires ClockForward(es, from, to) && to <= later && (ClockOf(e).Some? ==> to <= ClockOf(e).value <= later)
    requires Next(c, Run(c, v0, es), e).Some?
    ensures more == es + [e] && ClockForward(more, from, later) && Run(c, v0, more) == Next(c, Run(c, v0, es), e).value
  {
    RunMore(c, v0, es, e);
    ForwardMore(es, from, to, e, later);
    more := es + [e];
  }

  lemma {:induction false} DrainUpToTransfer(c: Config, v0: Vault, es: seq<Step>, t: int) returns (more: seq<Step>)
    requires OneQueued(Run(c, v0, es)) && ClockForward(es, 0, t)
    ensures InHand(Run(c, v0, more), ReadyToPay(c, t)) && Run(c, v0, more).chain == Run(c, v0, es).chain
        && ClockForward(more, 0, t)
  {
    hide Next, Run, ClockForward;
    Begins(c, Run(c, v0, es));
    Takes(c, Run(c, v0, es), t);
    more := Appends(c, v0, es, BeginDrain, 0, t, t);
    more := Appends(c, v0, more, TakeRow(t), 0, t, t);
    Prices(c, Run(c, v0, more), t);
    more := Appends(c, v0, more, OracleAnswers(Some(MID)), 0, t, t);
    Quotes(c, Run(c, v0, more), t);
    more := Appends(c, v0, more, BalancesAnswer(Wallet(c), 0.0), 0, t, t);
  }

  lemma {:induction false} LostAfterTransfer(c: Config, v0: Vault, es: seq<Step>, sig: Sig, t: int)
    returns (more: seq<Step>)
    requires c.handlerAuditMayThrow && InHand(Run(c, v0, es), ReadyToPay(c, t)) && ClockForward(es, 0, t)
    ensures var v, r := Run(c, v0, es), Run(c, v0, more);
            OneQueued(r) && |r.chain| == |v.chain| + 1 && r.chain[..|v.chain|] == v.chain && r.chain[|v.chain|].id == 0
    ensures ClockForward(more, 0, t + 2)
  {
    hide Next, Run, ClockForward;
    Lands(c, Run(c, v0, es), sig, t);
    more := Appends(c, v0, es, TransferLands(sig), 0, t, t);
    Faults(c, Run(c, v0, more), sig, t);
    more := Appends(c, v0, more, MarkSentFaultsUnaudited, 0, t, t);
    Requeues(c, Run(c, v0, more), t);
    more := Appends(c, v0, more, CatchHandles(t + 1), 0, t, t + 1);
    more := Appends(c, v0, more, EndDrain, 0, t + 1, t + 1);
    more := Appends(c, v0, more, Requeue(0, 1, t + 2), 0, t + 1, t + 2);
  }

  /**
    If the audit write in the handler of a failed mark-sent throws, a paid row ends up failed and can be queued
    again.
   */
  lemma {:induction false} PaidThenRequeued(c: Config, v0: Vault, es: seq<Step>, sig: Sig, t: int)
    returns (more: seq<Step>)
    requires c.handlerAuditMayThrow && OneQueued(Run(c, v0, es)) && ClockForward(es, 0, t)
    ensures var v, r := Run(c, v0, es), Run(c, v0, more);
            OneQueued(r) && |r.chain| == |v.chain| + 1 && r.chain[..|v.chain|] == v.chain && r.chain[|v.chain|].id == 0
    ensures ClockForward(more, 0, t + 2)
  {
    hide Run, ClockForward;
    var ready := DrainUpToTransfer(c, v0, es, t);
    more := LostAfterTransfer(c, v0, ready, sig, t);
  }

  /** The operator, who holds all 100 shares, queues one. */
  lemma {:induction false} FirstQueued(c: Config) returns (es: seq<Step>)
    ensures OneQueued(Run(c, Start(1, 100.0, 0), es)) && ClockForward(es, 0, 1)
  {
    hide Run, Next, ClockForward;
    var v0 := Start(1, 100.0, 0);
    EnrolledIsReached(c);
    QueuesOne(c);
    es := Appends(c, v0, FIRST, ReadAddress(1), 0, 0, 0);
    es := Appends(c, v0, es, QueueWithdrawal(1.0, 0.0, 1), 0, 0, 1);
  }

  lemma {:induction false} QueuesOne(c: Config)
    ensures var a := Next(c, Enrolled(), ReadAddress(1));
            && a.Some?
            && var b := Next(c, a.value, QueueWithdrawal(1.0, 0.0, 1));
            b.Some? && OneQueued(b.value)
  {
    assert Enrolled().tables.shares[1..] == [];
  }

  /** So some run pays one withdrawal twice. */
  lemma {:induction false} DoublePayIfHandlerAuditThrows(c: Config)
    requires c.handlerAuditMayThrow
    ensures exists es :: ClockForward(es, 0, 5) && !PaidOnce(Run(c, Start(1, 100.0, 0), es).chain)
  {
    var v0 := Start(1, 100.0, 0);
    var es := FirstQueued(c);
    hide Run, ClockForward;
    var first := PaidThenRequeued(c, v0, es, "s1", 1);
    var second := PaidThenRequeued(c, v0, first, "s2", 3);
    var before, chain := Run(c, v0, first).chain, Run(c, v0, second).chain;
    var n := |before|;
    assert chain[n - 1] == chain[..n][n - 1];
    assert chain[n - 1].id == chain[n].id;
  }

  /**
    In the runs whose clock never goes back, no withdrawal is paid twice if and only if that audit write cannot
    throw.
   */
  lemma {:induction false} PaidOnceIff(c: Config)
    ensures (forall es, to :: ClockForward(es, 0, to) ==> PaidOnce(Run(c, Start(1, 100.0, 0), es).chain)) <==>
        !c.handlerAuditMayThrow
  {
    hide Run, PaidOnce, ClockForward;
    if c.handlerAuditMayThrow {
      DoublePayIfHandlerAuditThrows(c);
    } else {
      forall es, to | ClockForward(es, 0, to) ensures PaidOnce(Run(c, Start(1, 100.0, 0), es).chain) {
        PaidAtMostOnce(c, 1, 100.0, 0, es);
      }
    }
  }

  /**
    The handler reads the address before it awaits the NAV, so a change that takes effect meanwhile is missed:
    some run queues a row to an address that is no longer the user's active one.
   */
  lemma {:induction false} QueuedToReplacedAddress(c: Config)
    ensures exists es, to ::
              ClockForward(es, 0, to) &&
              var v := Run(c, Start(1, 100.0, 0), es);
              && |v.tables.withdrawals| == 1 && v.tables.withdrawals[0].user == 1
              && Whitelist.ActiveOf(v.whitelist, 1) == Some("B") && v.tables.withdrawals[0].destination == "A"
  {
    var v0 := Start(1, 100.0, 0);
    var due := Max(0, c.cooldownMs);
    hide Run, Next, ClockForward, Enrolled, Changing;
    EnrolledIsReached(c);
    ChangeRequested(c);
    var es := Appends(c, v0, FIRST, WhitelistMove(Whitelist.Request(1, "B", 0)), 0, 0, 0);
    ReplacedWhileWaiting(c, due);
    es := Appends(c, v0, es, ReadAddress(1), 0, 0, 0);
    es := Appends(c, v0, es, WhitelistMove(Whitelist.Activate(due)), 0, 0, due);
    es := Appends(c, v0, es, QueueWithdrawal(1.0, 0.0, due), 0, due, due);
  }

  /** The enrolled vault, with a change to another address pending. */
  function Changing(c: Config): Vault {
    var w := Enrolled().whitelist;
    Enrolled().(whitelist := w.(changes := w.changes
                                + [Whitelist.Change(1, Some("A"), "B", 0, c.cooldownMs, Whitelist.Pending)]))
  }

  lemma {:induction false} ChangeRequested(c: Config)
    ensures Next(c, Enrolled(), WhitelistMove(Whitelist.Request(1, "B", 0))) == Some(Changing(c))
  {
  }

  lemma {:induction false} ReplacedWhileWaiting(c: Config, due: int)
    requires c.cooldownMs <= due
    ensures var a := Next(c, Changing(c), ReadAddress(1));
            && a.Some?
            && var b := Next(c, a.value, WhitelistMove(Whitelist.Activate(due)));
            && b.Some?
            && var d := Next(c, b.value, QueueWithdrawal(1.0, 0.0, due));
            && d.Some? && |d.value.tables.withdrawals| == 1 && d.value.tables.withdrawals[0].user == 1
            && Whitelist.ActiveOf(d.value.whitelist, 1) == Some("B") && d.value.tables.withdrawals[0].destination == "A"
  {
    hide Whitelist.ActivateDue;
    var w := Changing(c).whitelist;
    assert Whitelist.LatestDue(w.changes, due, 1, 1);
    Whitelist.ActivateDueLeavesLatest(w, due, 1, 1);
  }

  // ----- a settlement that writes an older timestamp than a credit that ran meanwhile

  /** The row in hand is paid and its signature recorded; no deposit yet. */
  ghost predicate PaidInHand(v: Vault, t: int, sig: Sig) {
    v.drain.Draining? && v.drain.pc == Marked(0, t, ONE_DOLLAR, sig) && v.tables.deposits == []
  }

  lemma {:induction false} Marks(c: Config, v: Vault, sig: Sig, t: int)
    requires InHand(v, Sent(0, t, ONE_DOLLAR, sig))
    ensures var n := Next(c, v, MarkSentSucceeds); n.Some? && PaidInHand(n.value, t, sig)
  {
    hide TotalShares;
  }

  /** A recredit of one SOL, at a dollar per share. */
  function Recredit(at: int): CreditParams {
    CreditParams(7, "in", "sweep", 1000000000, 0, MID, 1.0, at, at, at)
  }

  lemma {:induction false} Credits(c: Config, v: Vault, sig: Sig, t: int, at: int)
    requires PaidInHand(v, t, sig) && t < at
    ensures var n := Next(c, v, CreditDeposit(Recredit(at)));
            n.Some? && n.value.drain == v.drain && !NotBefore(n.value.tables.snapshots, t)
  {
    CreditEffect(v.tables, Recredit(at));
    var u := Credit(v.tables, Recredit(at)).value;
    var s := CreditSnapshot(Recredit(at), TotalShares(u.shares));
    var k := UpsertShape(v.tables.snapshots, s);
    assert u.snapshots[k] == s;
  }

  lemma {:induction false} PaidAndMarked(c: Config) returns (es: seq<Step>)
    ensures PaidInHand(Run(c, Start(1, 100.0, 0), es), 1, "s") && ClockForward(es, 0, 1)
  {
    hide Next, Run, ClockForward, OneQueued, InHand, PaidInHand;
    var v0 := Start(1, 100.0, 0);
    es := FirstQueued(c);
    es := DrainUpToTransfer(c, v0, es, 1);
    Lands(c, Run(c, v0, es), "s", 1);
    es := Appends(c, v0, es, TransferLands("s"), 0, 1, 1);
    Marks(c, Run(c, v0, es), "s", 1);
    es := Appends(c, v0, es, MarkSentSucceeds, 0, 1, 1);
  }

  /**
    processOne stamps its snapshot with the clock it read first, so with a clock that never goes back a credit that
    ran during its awaits leaves a later snapshot: the latest one is then not the last written.
   */
  lemma {:induction false} StaleSnapshotRun(c: Config)
    requires !c.handlerAuditMayThrow
    ensures exists es, to ::
              ClockForward(es, 0, to)
                && var v := Run(c, Start(1, 100.0, 0), es); Latest(v.tables.snapshots) != Some(v.lastSnapshot)
  {
    hide Next, Run, ClockForward, NotBefore, Latest, DrainOk, SnapshotsOk, RowsOk, ChainOk, SharesOk, DestinationsOk;
    var v0 := Start(1, 100.0, 0);
    var es := PaidAndMarked(c);
    Credits(c, Run(c, v0, es), "s", 1, 2);
    es := Appends(c, v0, es, CreditDeposit(Recredit(2)), 0, 1, 2);
    var v := Run(c, v0, es);
    StartInv(c, 1, 100.0, 0);
    RunKeepsInv(c, v0, es);
    SettleIsLatestIff(c, v);
    SettleIsNext(c, v);
    es := Appends(c, v0, es, SettleSucceeds, 0, 2, 2);
  }

  lemma {:induction false} SettleIsNext(c: Config, v: Vault)
    ensures Next(c, v, SettleSucceeds) == DrainStep(c, v, SettleSucceeds)
  {
    hide DrainStep;
  }

  /** completeWithdrawal alone is not idempotent: a second call burns again, and the ledger no longer balances. */
  lemma {:induction false} CompletingTwiceUnbalances(t: Tables, id: nat, sig: Sig, p: Payout, at: int)
    requires HasRow(t, id) && t.withdrawals[id].status.Completed? && t.withdrawals[id].sharesBurned != 0.0
    ensures var u := CompleteWithdrawal(t, id, sig, p, at).value;
            && SumBurned(u.withdrawals) == SumBurned(t.withdrawals) && SumMinted(u.deposits) == SumMinted(t.deposits)
            && TotalShares(u.shares) != TotalShares(t.shares)
  {
    var u := CompleteWithdrawal(t, id, sig, p, at).value;
    AddSharesEffect(t.shares, t.withdrawals[id].user, -t.withdrawals[id].sharesBurned);
    SumBurnedUpdate(t.withdrawals, id, u.withdrawals[id]);
  }
}
