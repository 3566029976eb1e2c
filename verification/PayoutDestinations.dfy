/**
  The withdraw handler reads the user's address, awaits the NAV and queues the row (src/vault/commands.ts:815-851).
  Chat handlers run one at a time, so in between only the tick moves: exactly when is the address still active at the
  queueing, whatever the tick does?
 */
module PayoutDestinations {
  import opened Prelude
  import opened Ledger
  import Whitelist
  import opened PayoutProtocol

  /** Whenever the tick next activates what is due, from `since` on, it leaves the user with this address. */
  ghost predicate DueOnlyTo(cs: seq<Whitelist.Change>, since: int, user: User, address: Address) {
    forall now, id: nat :: since <= now && Whitelist.LatestDue(cs, now, user, id) ==> cs[id].newAddress == address
  }

  /** Of the first n rows: the user's due row that activates last, if there is one. */
  lemma {:induction false} LatestExists(cs: seq<Whitelist.Change>, now: int, user: User, n: nat)
    returns (latest: Option<nat>)
    requires n <= |cs|
    ensures latest.None? ==> forall id :: 0 <= id < n && Whitelist.Due(cs[id], now) ==> cs[id].user != user
    ensures latest.Some? ==>
              && latest.value < n && cs[latest.value].user == user && Whitelist.Due(cs[latest.value], now)
              && forall j :: 0 <= j < n && j != latest.value && cs[j].user == user && Whitelist.Due(cs[j], now) ==>
                   Whitelist.InOrder(cs, j, latest.value)
  {
    if n == 0 {
      latest := None;
    } else {
      latest := LatestExists(cs, now, user, n - 1);
      if cs[n - 1].user == user && Whitelist.Due(cs[n - 1], now)
         && (latest.None? || cs[latest.value].activatesAt <= cs[n - 1].activatesAt) {
        latest := Some(n - 1);
      }
    }
  }

  /** An activation keeps the address and the prospect. */
  lemma {:induction false} ActivateKeeps(s: Whitelist.State, since: int, now: int, user: User, address: Address)
    requires since <= now && Whitelist.ActiveOf(s, user) == Some(address) && DueOnlyTo(s.changes, since, user, address)
    ensures var r := Whitelist.ActivateDue(s, now);
            Whitelist.ActiveOf(r, user) == Some(address) && DueOnlyTo(r.changes, since, user, address)
  {
    var r := Whitelist.ActivateDue(s, now);
    var latest := LatestExists(s.changes, now, user, |s.changes|);
    if latest.None? {
      Whitelist.ActivateDueLeavesOthers(s, now, user);
    } else {
      assert Whitelist.LatestDue(s.changes, now, user, latest.value);
      Whitelist.ActivateDueLeavesLatest(s, now, user, latest.value);
    }
    Whitelist.ActivateDueRows(s, now);
    forall t, id: nat | since <= t && Whitelist.LatestDue(r.changes, t, user, id)
      ensures r.changes[id].newAddress == address
    {
      StillLatest(s, now, t, user, id);
    }
  }

  /** A row that is the latest due one after an activation was so before. */
  lemma {:induction false} StillLatest(s: Whitelist.State, now: int, t: int, user: User, id: nat)
    requires Whitelist.LatestDue(Whitelist.ActivateDue(s, now).changes, t, user, id)
    ensures Whitelist.LatestDue(s.changes, t, user, id) && s.changes[id] == Whitelist.ActivateDue(s, now).changes[id]
  {
    var r := Whitelist.ActivateDue(s, now);
    Whitelist.ActivateDueRows(s, now);
    hide Whitelist.ActivateDue;
    forall j | 0 <= j < |s.changes| && j != id && s.changes[j].user == user && Whitelist.Due(s.changes[j], t)
      ensures Whitelist.InOrder(s.changes, j, id)
    {
      if !Whitelist.Due(s.changes[j], now) {
        assert Whitelist.Due(r.changes[j], t);
        assert Whitelist.InOrder(r.changes, j, id);
      }
    }
  }

  /**
    What the rest of the bot may do while the handler waits: anything but another chat command, at the clock or
    later.
   */
  predicate WhileWaiting(e: Step, since: int) {
    && !e.ReadAddress? && !e.DropRequest? && !e.QueueWithdrawal? && !e.Requeue? && !e.Crash?
    && (e.WhitelistMove? ==> e.move.Activate? && since <= e.move.now)
  }

  ghost predicate AllWhileWaiting(es: seq<Step>, since: int) {
    forall k :: 0 <= k < |es| ==> WhileWaiting(es[k], since)
  }

  lemma {:induction false} DrainLeavesRequest(c: Config, v: Vault, e: Step)
    requires DrainStep(c, v, e).Some?
    ensures DrainStep(c, v, e).value.request == v.request && DrainStep(c, v, e).value.whitelist == v.whitelist
  {
    hide ShareMath.MakeQuote, TotalShares, Settle, Latest, IdsByStatus;
  }

  lemma {:induction false} WaitingStep(c: Config, v: Vault, e: Step, since: int)
    requires Next(c, v, e).Some? && WhileWaiting(e, since)
    ensures var r := Next(c, v, e).value;
            r.request == v.request && r.whitelist == if e.WhitelistMove?
              then Whitelist.ActivateDue(v.whitelist, e.move.now) else v.whitelist
  {
    hide TotalShares, Credit, Latest, DrainStep;
    if HandlerStep(c, v, e).None? {
      DrainLeavesRequest(c, v, e);
    }
  }

  lemma {:induction false} WaitingKeeps(c: Config, v: Vault, es: seq<Step>, since: int, user: User, address: Address)
    requires AllWhileWaiting(es, since)
    requires Whitelist.ActiveOf(v.whitelist, user) == Some(address)
        && DueOnlyTo(v.whitelist.changes, since, user, address)
    ensures var r := Run(c, v, es);
            && Whitelist.ActiveOf(r.whitelist, user) == Some(address)
               && DueOnlyTo(r.whitelist.changes, since, user, address)
  {
    hide Next, DueOnlyTo, Whitelist.ActiveOf, Whitelist.ActivateDue;
    if es != [] {
      var n := |es| - 1;
      WaitingKeeps(c, v, es[..n], since, user, address);
      var before := Run(c, v, es[..n]);
      if Next(c, before, es[n]).Some? {
        WaitingStep(c, before, es[n], since);
        if es[n].WhitelistMove? {
          ActivateKeeps(before.whitelist, since, es[n].move.now, user, address);
        }
      }
    }
  }

  lemma {:induction false} WaitingKeepsRequest(c: Config, v: Vault, es: seq<Step>, since: int)
    requires AllWhileWaiting(es, since)
    ensures Run(c, v, es).request == v.request
  {
    hide Next;
    if es != [] {
      var n := |es| - 1;
      WaitingKeepsRequest(c, v, es[..n], since);
      if Next(c, Run(c, v, es[..n]), es[n]).Some? {
        WaitingStep(c, Run(c, v, es[..n]), es[n], since);
      }
    }
  }

  /** The handler, having waited through `es`, queues a row to an address that is active at that moment. */
  ghost predicate QueuesToActive(c: Config, v: Vault, es: seq<Step>, burned: real, fee: real, at: int) {
    var n := Next(c, Run(c, v, es), QueueWithdrawal(burned, fee, at));
    && n.Some? && |n.value.tables.withdrawals| > 0
    && var w := n.value.tables.withdrawals[|n.value.tables.withdrawals| - 1];
    Whitelist.ActiveOf(n.value.whitelist, w.user) == Some(w.destination)
  }

  lemma {:induction false} Queues(c: Config, v: Vault, es: seq<Step>, burned: real, fee: real, at: int)
    requires Run(c, v, es).request.Some?
    ensures var r := Run(c, v, es);
            QueuesToActive(c, v, es, burned, fee, at) <==>
              Whitelist.ActiveOf(r.whitelist, r.request.value.user) == Some(r.request.value.address)
  {
    hide Run;
  }

  /**
    The handler read the address at `since`. In every run of the rest of the bot until it queues, the row goes to an
    address active at the queueing, if and only if, at the read, every pending change that an activation could apply
    last is to that very address.
   */
  lemma {:induction false} QueuedWhileActiveIff(c: Config, v0: Vault, user: User, since: int, burned: real,
                                                fee: real, at: int)
    requires Next(c, v0, ReadAddress(user)).Some?
    ensures var v := Next(c, v0, ReadAddress(user)).value;
            (forall es :: AllWhileWaiting(es, since) ==> QueuesToActive(c, v, es, burned, fee, at)) <==>
              DueOnlyTo(v0.whitelist.changes, since, user, v0.whitelist.active[user])
  {
    var v := Next(c, v0, ReadAddress(user)).value;
    var address := v0.whitelist.active[user];
    assert v.whitelist == v0.whitelist && v.request.Some? && v.request.value.user == user
      && v.request.value.address == address;
    hide Next;
    if DueOnlyTo(v0.whitelist.changes, since, user, address) {
      forall es | AllWhileWaiting(es, since) ensures QueuesToActive(c, v, es, burned, fee, at) {
        WaitingKeeps(c, v, es, since, user, address);
        WaitingKeepsRequest(c, v, es, since);
        Queues(c, v, es, burned, fee, at);
      }
    } else {
      var now, id: nat :| since <= now && Whitelist.LatestDue(v0.whitelist.changes, now, user, id)
                          && v0.whitelist.changes[id].newAddress != address;
      var es := [WhitelistMove(Whitelist.Activate(now))];
      Whitelist.ActivateDueLeavesLatest(v0.whitelist, now, user, id);
      OneActivation(c, v, now);
      WaitingKeepsRequest(c, v, es, since);
      Queues(c, v, es, burned, fee, at);
      assert AllWhileWaiting(es, since);
    }
  }

  lemma {:induction false} OneActivation(c: Config, v: Vault, now: int)
    ensures Run(c, v, [WhitelistMove(Whitelist.Activate(now))]).whitelist == Whitelist.ActivateDue(v.whitelist, now)
  {
    var e := WhitelistMove(Whitelist.Activate(now));
    assert [e][..0] == [];
    assert Run(c, v, []) == v;
  }
}
