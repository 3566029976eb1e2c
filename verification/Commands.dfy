/**
  The handlers as the source writes them (src/vault/commands.ts, src/vault/enrollment.ts): an object with maps from
  users to pending actions, setup failures and unlocks, and a rate limiter. Each handler changes one user's state
  exactly as `AccessGate.Step` says and nobody else's.
 */
module Commands {
  import opened Prelude
  import opened RateLimiter
  import opened AccessGate
  import opened AccessLimits

  /** What reaches the bot: one user's chat event, or a restart of the process. */
  datatype Item = Chat(user: User, event: AccessGate.Event) | Restarted(event: AccessGate.Event)

  predicate ItemOk(i: Item) {
    i.event.what.Restart? <==> i.Restarted?
  }

  predicate Affects(i: Item, u: User) {
    i.Restarted? || i.user == u
  }

  /** The events one user goes through. */
  function EventsOf(items: seq<Item>, u: User): seq<AccessGate.Event> {
    if items == [] then []
    else
      var n := |items| - 1;
      EventsOf(items[..n], u) + (if Affects(items[n], u) then [items[n].event] else [])
  }

  /** Where a user stands after all of it. */
  function Stands(c: Limits, items: seq<Item>, u: User): Gate {
    Run(c, EventsOf(items, u))
  }

  lemma {:induction false} OneMore(c: Limits, items: seq<Item>, i: nat, u: User)
    requires i < |items|
    ensures var before := Stands(c, items[..i], u);
            Stands(c, items[..i + 1], u) == if Affects(items[i], u) then Step(before, c, items[i].event) else before
  {
    hide Step;
    assert items[..i + 1][..i] == items[..i];
    var front := EventsOf(items[..i], u);
    assert EventsOf(items[..i + 1], u) == if Affects(items[i], u) then front + [items[i].event] else front;
    RunSnoc(c, front, items[i].event);
  }

  /** The clock never goes back over everything that reaches the bot. */
  ghost predicate ItemsForward(items: seq<Item>) {
    && (forall i :: 0 <= i < |items| ==> Timely(items[i].event))
    && (forall i, j :: 0 <= i < j < |items| ==> items[i].event.t2 <= items[j].event.t0)
  }

  lemma {:induction false} EventsForward(items: seq<Item>, u: User)
    requires ItemsForward(items)
    ensures AccessGate.ClockForward(EventsOf(items, u))
    ensures forall e :: e in EventsOf(items, u) ==> exists i :: 0 <= i < |items| && items[i].event == e
  {
    if items != [] {
      var n := |items| - 1;
      EventsForward(items[..n], u);
      var front := EventsOf(items[..n], u);
      forall k | 0 <= k < |front| ensures front[k].t2 <= items[n].event.t0 {
        assert front[k] in front;
        var i :| 0 <= i < n && items[..n][i].event == front[k];
        assert items[i].event == front[k];
      }
      forall e | e in EventsOf(items, u) ensures exists i :: 0 <= i < |items| && items[i].event == e {
        if e in front {
          var i :| 0 <= i < n && items[..n][i].event == e;
          assert items[i].event == e;
        }
      }
    }
  }

  /** Every action of the user was authorised, and the counters of each secret increase. */
  ghost predicate Guarded(log: seq<Entry>) {
    AllBacked(log) && Increasing(log)
  }

  /**
    In any interval within window and lockout and without a success: threshold rejections for each process serving
    it.
   */
  ghost predicate GuessBound(log: seq<Entry>, c: Limits, es: seq<AccessGate.Event>) {
    forall a, len :: len <= c.windowMs && len <= c.lockoutMs && NoSuccessIn(log, a, len) ==>
      RejectedIn(log, a, len) <= (1 + RestartsIn(es, a, len)) * Most(c)
  }

  lemma {:induction false} UserGuarantees(c: Limits, items: seq<Item>, u: User)
    requires ItemsForward(items)
    ensures Guarded(Stands(c, items, u).log) && GuessBound(Stands(c, items, u).log, c, EventsOf(items, u))
  {
    var es := EventsOf(items, u);
    EventsForward(items, u);
    RunKeeps(c, es);
    RunKeepsCounters(c, es);
    forall a, len | len <= c.windowMs && len <= c.lockoutMs && NoSuccessIn(Run(c, es).log, a, len)
      ensures RejectedIn(Run(c, es).log, a, len) <= (1 + RestartsIn(es, a, len)) * Most(c)
    {
      GuessesAreBounded(c, es, a, len);
    }
  }

  class CommandHandlers {
    const limiter: TotpRateLimiter
    var rows: map<User, Row>
    var pending: map<User, Pending>
    var totpSetupFailures: map<User, nat>
    var unlockedUntil: map<User, int>
    ghost var logs: map<User, seq<Entry>>

    constructor (limiter: TotpRateLimiter)
      requires forall u :: limiter.ForUser(u) == CLEAN
      ensures this.limiter == limiter && forall u :: ForUser(u) == NEWCOMER
    {
      this.limiter := limiter;
      rows, pending, totpSetupFailures, unlockedUntil, logs := map[], map[], map[], map[], map[];
    }

    ghost function ForUser(u: User): Gate
      reads this, limiter
    {
      Gate(if u in rows then Some(rows[u]) else None,
           if u in pending then Some(pending[u]) else None,
           if u in totpSetupFailures then totpSetupFailures[u] else 0,
           if u in unlockedUntil then Some(unlockedUntil[u]) else None,
           limiter.ForUser(u),
           if u in logs then logs[u] else [])
    }

    ghost function LogOf(u: User): seq<Entry>
      reads this
    {
      if u in logs then logs[u] else []
    }

    // ----- pieces

    /** rejectIfLocked */
    method RejectIfLocked(u: User, now: int) returns (locked: bool)
      modifies limiter
      ensures locked == LockedAt(old(ForUser(u)).limiter, now).Some?
      ensures ForUser(u) == Check(old(ForUser(u)), now)
      ensures forall v :: v != u ==> ForUser(v) == old(ForUser(v))
    {
      var until := limiter.IsLockedOut(u, now);
      locked := until.Some?;
    }

    method IsUnlocked(u: User, now: int) returns (unlocked: bool)
      ensures unlocked == Unlocked(ForUser(u), now)
    {
      unlocked := u in unlockedUntil && unlockedUntil[u] > now;
    }

    method ProceedOrAsk(u: User, a: Action, now: int)
      modifies this`logs, this`pending
      ensures ForUser(u) == Proceed(old(ForUser(u)), a, now)
      ensures forall v :: v != u ==> ForUser(v) == old(ForUser(v))
    {
      var unlocked := IsUnlocked(u, now);
      if unlocked {
        logs := logs[u := LogOf(u) + [Authorised(a, now, LockedAt(limiter.ForUser(u), now).Some?)]];
      } else {
        pending := pending[u := Awaiting(a)];
      }
    }

    // ----- commands

    /** handleDeposit, handleBalance, handleWithdraw with an amount, handleSetWhitelist, handleCancelWhitelist */
    method HandleCommand(u: User, a: Action, wellFormed: bool, proceeds: bool, t0: int, t1: int)
      modifies this, limiter
      ensures ForUser(u) == CommandStep(old(ForUser(u)), a, wellFormed, proceeds, t0, t1)
      ensures forall v :: v != u ==> ForUser(v) == old(ForUser(v))
    {
      if u !in rows || !rows[u].enrolled || !wellFormed {
        return;
      }
      var locked := RejectIfLocked(u, t0);
      if locked || !proceeds {
        return;
      }
      ProceedOrAsk(u, a, t1);
    }

    /** handleWithdraw without an amount */
    method HandleAskAmount(u: User, wellFormed: bool, e: AccessGate.Event)
      requires e.what == AskAmount(wellFormed)
      modifies this, limiter
      ensures ForUser(u) == Step(old(ForUser(u)), limiter.limits, e)
      ensures forall v :: v != u ==> ForUser(v) == old(ForUser(v))
    {
      if u !in rows || !rows[u].enrolled || !wellFormed {
        return;
      }
      var locked := RejectIfLocked(u, e.t0);
      if locked {
        return;
      }
      pending := pending[u := AmountEntry];
    }

    // ----- enrolment

    method BeginTotpEnrollment(u: User)
      requires u in rows
      modifies this`rows, this`pending
      ensures rows == old(rows)[u := Row(old(rows)[u].secret + 1, true, false, old(rows)[u].lastCounter)]
      ensures pending == old(pending)[u := SetupConfirm]
    {
      rows := rows[u := Row(rows[u].secret + 1, true, false, rows[u].lastCounter)];
      pending := pending[u := SetupConfirm];
    }

    method HandleAccount(u: User, e: AccessGate.Event)
      requires e.what.Account?
      modifies this
      ensures ForUser(u) == Step(old(ForUser(u)), limiter.limits, e)
      ensures forall v :: v != u ==> ForUser(v) == old(ForUser(v))
    {
      if u !in rows {
        pending := pending[u := Disclaimer];
      } else if !rows[u].enrolled {
        BeginTotpEnrollment(u);
      }
    }

    /** Enrollment.accept; `threw` if the token account could not be created. */
    method CreateUser(u: User, ataFails: bool) returns (threw: bool)
      modifies this`rows
      ensures threw == (ataFails && u !in old(rows)) && u in rows
      ensures rows == if u in old(rows) then old(rows) else old(rows)[u := Row(0, false, false, None)]
    {
      threw := false;
      if u !in rows {
        rows := rows[u := Row(0, false, false, None)];
        threw := ataFails;
      }
    }

    method HandleAccept(u: User, ataFails: bool)
      modifies this
      ensures ForUser(u) == AcceptStep(old(ForUser(u)), ataFails)
      ensures forall v :: v != u ==> ForUser(v) == old(ForUser(v))
    {
      if u !in pending || !pending[u].Disclaimer? {
        return;
      }
      pending := pending - {u};
      var stop := CreateUser(u, ataFails);
      if stop {
        return;
      }
      BeginTotpEnrollment(u);
      totpSetupFailures := totpSetupFailures - {u};
    }

    method HandleDecline(u: User, e: AccessGate.Event)
      requires e.what.Decline?
      modifies this
      ensures ForUser(u) == Step(old(ForUser(u)), limiter.limits, e)
      ensures forall v :: v != u ==> ForUser(v) == old(ForUser(v))
    {
      pending := pending - {u};
      totpSetupFailures := totpSetupFailures - {u};
    }

    /** The buttons that ask for an amount or an address. */
    method SetPendingEntry(u: User, amount: bool, e: AccessGate.Event)
      requires e.what == SetPending(amount)
      modifies this
      ensures ForUser(u) == Step(old(ForUser(u)), limiter.limits, e)
      ensures forall v :: v != u ==> ForUser(v) == old(ForUser(v))
    {
      pending := pending[u := if amount then AmountEntry else AddressEntry];
    }

    method CancelPending(u: User, e: AccessGate.Event)
      requires e.what.ClearPending?
      modifies this
      ensures ForUser(u) == Step(old(ForUser(u)), limiter.limits, e)
      ensures forall v :: v != u ==> ForUser(v) == old(ForUser(v))
    {
      pending := pending - {u};
    }

    /** clearUserTotp */
    method HandleResetTotp(u: User, e: AccessGate.Event)
      requires e.what.ResetTotp?
      modifies this
      ensures ForUser(u) == Step(old(ForUser(u)), limiter.limits, e)
      ensures forall v :: v != u ==> ForUser(v) == old(ForUser(v))
    {
      if u in rows {
        rows := rows[u := Row(rows[u].secret, false, false, None)];
      }
    }

    // ----- codes

    /** Store the counter and clear the failures. */
    method AcceptedCode(u: User, delta: Delta, e: AccessGate.Event)
      requires u in rows
      modifies this`rows, this`logs, limiter
      ensures ForUser(u) == AcceptCode(old(ForUser(u)), delta, e)
      ensures forall v :: v != u ==> ForUser(v) == old(ForUser(v))
    {
      var counter := StepOf(e.countedAt) + delta;
      logs := logs[u := LogOf(u) + [Accepted(e.t1, rows[u].secret, counter, StepOf(e.validatedAt) + delta)]];
      rows := rows[u := rows[u].(enrolled := true, lastCounter := Some(counter))];
      limiter.RecordSuccess(u);
    }

    method RejectedCode(u: User, now: int) returns (tripped: bool)
      modifies this`logs, limiter
      ensures tripped == Trips(old(ForUser(u)).limiter, limiter.limits, now)
      ensures ForUser(u) == Reject(old(ForUser(u)), limiter.limits, now)
      ensures forall v :: v != u ==> ForUser(v) == old(ForUser(v))
    {
      var until := limiter.RecordFailure(u, now);
      tripped := until.Some?;
      logs := logs[u := LogOf(u) + [Rejected(now)]];
    }

    method EndSetup(u: User)
      modifies this`pending, this`totpSetupFailures
      ensures ForUser(u) == old(ForUser(u)).(pending := None, setupFailures := 0)
      ensures forall v :: v != u ==> ForUser(v) == old(ForUser(v))
    {
      pending := pending - {u};
      totpSetupFailures := totpSetupFailures - {u};
    }

    method RespondTotpSetupConfirm(u: User, delta: Option<Delta>, e: AccessGate.Event)
      modifies this, limiter
      ensures ForUser(u) == ConfirmStep(old(ForUser(u)), limiter.limits, delta, e)
      ensures forall v :: v != u ==> ForUser(v) == old(ForUser(v))
    {
      hide StepOf, Failed, Trips;
      if u in rows && rows[u].hasSecret && delta.Some? {
        AcceptedCode(u, delta.value, e);
        EndSetup(u);
        return;
      }
      var failures := (if u in totpSetupFailures then totpSetupFailures[u] else 0) + 1;
      var tripped := RejectedCode(u, e.t1);
      if tripped || failures >= TOTP_SETUP_MAX_FAILURES {
        EndSetup(u);
      } else {
        totpSetupFailures := totpSetupFailures[u := failures];
      }
    }

    /** verifyTotpGated, then the action it was asked for. */
    method RespondWithCode(u: User, a: Action, delta: Option<Delta>, e: AccessGate.Event)
      modifies this, limiter
      ensures ForUser(u) == VerifyStep(old(ForUser(u)), limiter.limits, a, delta, e)
      ensures forall v :: v != u ==> ForUser(v) == old(ForUser(v))
    {
      hide StepOf, Failed, Trips;
      ghost var before := ForUser(u);
      var locked := RejectIfLocked(u, e.t1);
      if locked {
        return;
      }
      if u in rows && rows[u].enrolled && rows[u].hasSecret && delta.Some?
         && !(rows[u].lastCounter.Some? && StepOf(e.countedAt) + delta.value <= rows[u].lastCounter.value) {
        assert Verifies(before, delta, e);
        AcceptedCode(u, delta.value, e);
        unlockedUntil := unlockedUntil[u := e.t2 + TOTP_UNLOCK_MS];
        logs := logs[u := LogOf(u) + [Verified(e.t2)] + [Authorised(a, e.t2, false)]];
      } else {
        assert !Verifies(before, delta, e);
        var _ := RejectedCode(u, e.t1);
      }
    }

    /** handleMessage */
    method HandleMessage(u: User, entered: Option<Action>, delta: Option<Delta>, e: AccessGate.Event)
      modifies this, limiter
      ensures ForUser(u) == MessageStep(old(ForUser(u)), limiter.limits, entered, delta, e)
      ensures forall v :: v != u ==> ForUser(v) == old(ForUser(v))
    {
      hide ConfirmStep, VerifyStep, CommandStep, Proceed;
      if u !in pending || pending[u].Disclaimer? {
        return;
      }
      var awaited := pending[u];
      var locked := RejectIfLocked(u, e.t0);
      if locked {
        return;
      }
      if awaited.SetupConfirm? {
        RespondTotpSetupConfirm(u, delta, e);
        return;
      }
      pending := pending - {u};
      if awaited.Awaiting? {
        RespondWithCode(u, awaited.action, delta, e);
      } else if entered.Some? {
        if awaited.AmountEntry? {
          ProceedOrAsk(u, entered.value, e.t1);
        } else {
          HandleCommand(u, entered.value, true, true, e.t1, e.t2);
        }
      }
    }

    // ----- the whole life of the object

    /** One chat event. */
    method Handle(u: User, e: AccessGate.Event)
      requires !e.what.Restart?
      modifies this, limiter
      ensures ForUser(u) == Step(old(ForUser(u)), limiter.limits, e)
      ensures forall v :: v != u ==> ForUser(v) == old(ForUser(v))
    {
      hide CommandStep, MessageStep, AcceptStep, Begin;
      match e.what {
        case Account => HandleAccount(u, e);
        case Accept(ataFails) => HandleAccept(u, ataFails);
        case Decline => HandleDecline(u, e);
        case Command(a, wellFormed, proceeds) => HandleCommand(u, a, wellFormed, proceeds, e.t0, e.t1);
        case AskAmount(wellFormed) => HandleAskAmount(u, wellFormed, e);
        case Message(entered, delta) => HandleMessage(u, entered, delta, e);
        case SetPending(amount) => SetPendingEntry(u, amount, e);
        case ClearPending => CancelPending(u, e);
        case ResetTotp => HandleResetTotp(u, e);
      }
    }

    /** A new process: only what the database holds survives. */
    method Restart(e: AccessGate.Event)
      requires e.what.Restart?
      modifies this, limiter
      ensures forall u :: ForUser(u) == Step(old(ForUser(u)), limiter.limits, e)
    {
      pending, totpSetupFailures, unlockedUntil := map[], map[], map[];
      limiter.Forget();
    }

    method HandleItem(item: Item)
      requires ItemOk(item)
      modifies this, limiter
      ensures forall u :: ForUser(u) == if Affects(item, u) then Step(old(ForUser(u)), limiter.limits, item.event)
          else old(ForUser(u))
    {
      hide Step;
      match item {
        case Chat(u, event) => Handle(u, event);
        case Restarted(event) => Restart(event);
      }
    }

    /**
      Any sequence of chat events and restarts leaves every user exactly where that user's own events lead. So if the
      clock never went back, every action was authorised, counters increased and guesses were bounded.
     */
    method HandleAll(items: seq<Item>)
      requires (forall i :: 0 <= i < |items| ==> ItemOk(items[i])) && forall u :: ForUser(u) == NEWCOMER
      modifies this, limiter
      ensures forall u :: ForUser(u) == Stands(limiter.limits, items, u)
      ensures ItemsForward(items) ==>
                forall u :: Guarded(ForUser(u).log) && GuessBound(ForUser(u).log, limiter.limits, EventsOf(items, u))
    {
      Through(items);
      hide ForUser, Stands, Guarded, GuessBound;
      if ItemsForward(items) {
        forall u ensures Guarded(ForUser(u).log) && GuessBound(ForUser(u).log, limiter.limits, EventsOf(items, u)) {
          UserGuarantees(limiter.limits, items, u);
        }
      }
    }

    method Through(items: seq<Item>)
      requires (forall i :: 0 <= i < |items| ==> ItemOk(items[i])) && forall u :: ForUser(u) == NEWCOMER
      modifies this, limiter
      ensures forall u :: ForUser(u) == Stands(limiter.limits, items, u)
    {
      assert forall u :: Stands(limiter.limits, [], u) == NEWCOMER;
      assert items[..0] == [];
      hide Step, ForUser, Stands;
      for i := 0 to |items|
        invariant forall u :: ForUser(u) == Stands(limiter.limits, items[..i], u)
      {
        forall u {
          OneMore(limiter.limits, items, i, u);
        }
        HandleItem(items[i]);
      }
      assert items[..|items|] == items;
    }
  }
}
