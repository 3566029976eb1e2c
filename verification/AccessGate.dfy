/**
  The two-factor gate in front of a user's privileged actions (src/vault/commands.ts, src/vault/totp.ts,
  src/vault/enrollment.ts): one user's state, what each handler does to it, and what holds over every run of handlers.
  Handlers of the chat run one at a time. Whether a code is that of some time step under a secret is left to the
  environment, as is which of the three steps around the clock it matches.
 */
module AccessGate {
  import opened Prelude
  import opened RateLimiter

  const TOTP_UNLOCK_MS := 5 * 60 * 1000
  const TOTP_SETUP_MAX_FAILURES := 5
  const STEP_MS := 30_000

  datatype Action = DepositReveal | BalanceReveal | Withdraw(amountUsd: real) | SetWhitelist(address: string)
    | CancelWhitelist

  datatype Pending = Disclaimer | SetupConfirm | AmountEntry | AddressEntry | Awaiting(action: Action)

  /** The user's row: each secret generated for it has a number, and is pending until enrolled. */
  datatype Row = Row(secret: nat, hasSecret: bool, enrolled: bool, lastCounter: Option<int>)

  /** What happened, for the properties below. */
  datatype Entry =
    | Accepted(at: int, secret: nat, counter: int, step: int)
    | Verified(at: int)
    | Rejected(at: int)
    | Authorised(action: Action, at: int, locked: bool)

  datatype Gate = Gate(row: Option<Row>, pending: Option<Pending>, setupFailures: nat, unlockedUntil: Option<int>,
                       limiter: Limiter,
                       log: seq<Entry>)

  const NEWCOMER := Gate(None, None, 0, None, CLEAN, [])

  /** The time step a code matched, relative to the clock: one step of tolerance either way. */
  type Delta = d: int | -1 <= d <= 1

  datatype What =
    | Account
    | Accept(ataFails: bool)
    | Decline
    | Command(action: Action, wellFormed: bool, proceeds: bool)
    | AskAmount(wellFormed: bool)
    | Message(entered: Option<Action>, delta: Option<Delta>)
    | SetPending(amount: bool)
    | ClearPending
    | ResetTotp
    | Restart

  /** A handler's run: its successive clock reads, and the two that a code verification makes. */
  datatype Event = Event(what: What, t0: int, t1: int, t2: int, validatedAt: int, countedAt: int)

  function StepOf(ms: int): int {
    ms / STEP_MS
  }

  predicate Enrolled(g: Gate) {
    g.row.Some? && g.row.value.enrolled
  }

  predicate Unlocked(g: Gate, now: int) {
    g.unlockedUntil.Some? && g.unlockedUntil.value > now
  }

  // ----- handlers

  function Log(g: Gate, e: Entry): Gate {
    g.(log := g.log + [e])
  }

  function Authorise(g: Gate, a: Action, at: int): Gate {
    Log(g, Authorised(a, at, LockedAt(g.limiter, at).Some?))
  }

  /** An unlocked user proceeds at once; any other is asked for a code. */
  function Proceed(g: Gate, a: Action, at: int): Gate {
    if Unlocked(g, at) then Authorise(g, a, at) else g.(pending := Some(Awaiting(a)))
  }

  /** rejectIfLocked */
  function Check(g: Gate, at: int): Gate {
    g.(limiter := Checked(g.limiter, at))
  }

  function CommandStep(g: Gate, a: Action, wellFormed: bool, proceeds: bool, t0: int, t1: int): Gate {
    if !Enrolled(g) || !wellFormed then g
    else if LockedAt(g.limiter, t0).Some? || !proceeds then Check(g, t0)
    else Proceed(Check(g, t0), a, t1)
  }

  /** beginTotpEnrollment, then the prompt for a code. */
  function Begin(g: Gate): Gate
    requires g.row.Some?
  {
    var r := g.row.value;
    g.(row := Some(Row(r.secret + 1, true, false, r.lastCounter)), pending := Some(SetupConfirm))
  }

  function Reject(g: Gate, c: Limits, at: int): Gate {
    Log(g.(limiter := Failed(g.limiter, c, at)), Rejected(at))
  }

  /** The counter verifyCode returns: the clock is read again after the code was matched. */
  function Counter(delta: Delta, e: Event): int {
    StepOf(e.countedAt) + delta
  }

  function AcceptCode(g: Gate, delta: Delta, e: Event): Gate
    requires g.row.Some?
  {
    var r := g.row.value;
    Log(g.(row := Some(r.(enrolled := true, lastCounter := Some(Counter(delta, e)))), limiter := CLEAN),
        Accepted(e.t1, r.secret, Counter(delta, e), StepOf(e.validatedAt) + delta))
  }

  /** confirmTotp: no counter to exceed yet. */
  predicate Confirms(g: Gate, delta: Option<Delta>) {
    g.row.Some? && g.row.value.hasSecret && delta.Some?
  }

  /** verifyTotp: the counter must exceed the last one used. */
  predicate Verifies(g: Gate, delta: Option<Delta>, e: Event) {
    && Enrolled(g) && g.row.value.hasSecret && delta.Some?
    && (g.row.value.lastCounter.Some? ==> Counter(delta.value, e) > g.row.value.lastCounter.value)
  }

  function ConfirmStep(g: Gate, c: Limits, delta: Option<Delta>, e: Event): Gate {
    if Confirms(g, delta) then AcceptCode(g.(pending := None, setupFailures := 0), delta.value, e)
    else
      var r := Reject(g, c, e.t1);
      if Trips(g.limiter, c, e.t1)
        || g.setupFailures + 1 >= TOTP_SETUP_MAX_FAILURES
      then r.(pending := None, setupFailures := 0)
      else r.(setupFailures := g.setupFailures + 1)
  }

  function VerifyStep(g: Gate, c: Limits, a: Action, delta: Option<Delta>, e: Event): Gate {
    if LockedAt(g.limiter, e.t1).Some? then g
    else if !Verifies(g, delta, e) then Reject(Check(g, e.t1), c, e.t1)
    else Authorise(Log(AcceptCode(g, delta.value, e).(unlockedUntil := Some(e.t2 + TOTP_UNLOCK_MS)), Verified(e.t2)),
                   a, e.t2)
  }

  /** handleMessage: the text is a code, an amount or an address, whichever is awaited. */
  function MessageStep(g: Gate, c: Limits, entered: Option<Action>, delta: Option<Delta>, e: Event): Gate {
    if g.pending.None? || g.pending.value.Disclaimer? then g
    else if LockedAt(g.limiter, e.t0).Some? then g
    else
      var h := Check(g, e.t0);
      var k := h.(pending := None);
      match g.pending.value
      case SetupConfirm => ConfirmStep(h, c, delta, e)
      case AmountEntry => if entered.None? then k else Proceed(k, entered.value, e.t1)
      case AddressEntry => if entered.None? then k else CommandStep(k, entered.value, true, true, e.t1, e.t2)
      case Awaiting(a) => VerifyStep(k, c, a, delta, e)
  }

  function AcceptStep(g: Gate, ataFails: bool): Gate {
    if g.pending != Some(Disclaimer) then g
    else if g.row.None? && ataFails then g.(pending := None, row := Some(Row(0, false, false, None)))
    else
      var h := if g.row.None? then g.(row := Some(Row(0, false, false, None))) else g;
      Begin(h).(setupFailures := 0)
  }

  function Step(g: Gate, c: Limits, e: Event): Gate {
    match e.what
    case Account =>
      if g.row.None? then g.(pending := Some(Disclaimer)) else if !g.row.value.enrolled then Begin(g) else g
    case Accept(ataFails) => AcceptStep(g, ataFails)
    case Decline => g.(pending := None, setupFailures := 0)
    case Command(a, wellFormed, proceeds) => CommandStep(g, a, wellFormed, proceeds, e.t0, e.t1)
    case AskAmount(wellFormed) =>
      if !Enrolled(g) || !wellFormed then g
      else if LockedAt(g.limiter, e.t0).Some? then g
      else Check(g, e.t0).(pending := Some(AmountEntry))
    case Message(entered, delta) => MessageStep(g, c, entered, delta, e)
    case SetPending(amount) => g.(pending := Some(if amount then AmountEntry else AddressEntry))
    case ClearPending => g.(pending := None)
    case ResetTotp =>
      if g.row.None? then g else g.(row := Some(Row(g.row.value.secret, false, false, None)))
    case Restart => Gate(g.row, None, 0, None, CLEAN, g.log)
  }

  function Run(c: Limits, es: seq<Event>): Gate {
    if es == [] then NEWCOMER else Step(Run(c, es[..|es| - 1]), c, es[|es| - 1])
  }

  /** The order in which a handler reads the clock. */
  predicate Timely(e: Event) {
    e.t0 <= e.t1 <= e.t2 && (e.what.Message? ==> e.t1 <= e.validatedAt <= e.countedAt <= e.t2)
  }

  /** The clock never goes back, within a handler or from one to the next. */
  ghost predicate ClockForward(es: seq<Event>) {
    && (forall i :: 0 <= i < |es| ==> Timely(es[i]))
    && (forall i, j :: 0 <= i < j < |es| ==> es[i].t2 <= es[j].t0)
  }

  lemma {:induction false} ClockPrefix(es: seq<Event>)
    requires ClockForward(es) && es != []
    ensures ClockForward(es[..|es| - 1])
  {
  }

  // ----- every action is authorised

  /** Some success of the user lies before entry i, at most the unlock time before `at`. */
  ghost predicate Backed(log: seq<Entry>, i: nat, at: int)
    requires i <= |log|
  {
    exists j :: 0 <= j < i && log[j].Verified? && log[j].at <= at < log[j].at + TOTP_UNLOCK_MS
  }

  ghost predicate AllBacked(log: seq<Entry>) {
    forall i :: 0 <= i < |log| && log[i].Authorised? ==> !log[i].locked && Backed(log, i, log[i].at)
  }

  ghost predicate UnlockBacked(g: Gate, clock: int) {
    g.unlockedUntil.Some? ==>
      g.unlockedUntil.value - TOTP_UNLOCK_MS <= clock && Verified(g.unlockedUntil.value - TOTP_UNLOCK_MS) in g.log
  }

  ghost predicate GateInv(g: Gate, clock: int) {
    AllBacked(g.log) && UnlockBacked(g, clock)
  }

  lemma {:induction false} BackedGrows(log: seq<Entry>, e: Entry)
    requires AllBacked(log) && (e.Authorised? ==> !e.locked && Backed(log, |log|, e.at))
    ensures AllBacked(log + [e])
  {
    var more := log + [e];
    forall i | 0 <= i < |more| && more[i].Authorised? ensures !more[i].locked && Backed(more, i, more[i].at) {
      assert Backed(log, i, more[i].at);
      var j :| 0 <= j < i && log[j].Verified? && log[j].at <= more[i].at < log[j].at + TOTP_UNLOCK_MS;
      assert more[j] == log[j];
    }
  }

  lemma {:induction false} LogKeeps(g: Gate, e: Entry, clock: int)
    requires GateInv(g, clock) && (e.Authorised? ==> !e.locked && Backed(g.log, |g.log|, e.at))
    ensures GateInv(Log(g, e), clock)
  {
    BackedGrows(g.log, e);
  }

  lemma {:induction false} UnlockBacks(g: Gate, clock: int, at: int)
    requires UnlockBacked(g, clock) && clock <= at && Unlocked(g, at)
    ensures Backed(g.log, |g.log|, at)
  {
  }

  lemma {:induction false} ProceedKeeps(g: Gate, a: Action, clock: int, at: int)
    requires GateInv(g, clock) && clock <= at && LockedAt(g.limiter, at).None?
    ensures GateInv(Proceed(g, a, at), clock)
  {
    if Unlocked(g, at) {
      UnlockBacks(g, clock, at);
      LogKeeps(g, Authorised(a, at, false), clock);
    }
  }

  lemma {:induction false} CommandKeeps(g: Gate, a: Action, wellFormed: bool, proceeds: bool, clock: int, t0: int,
                                        t1: int)
    requires GateInv(g, clock) && clock <= t0 <= t1
    ensures GateInv(CommandStep(g, a, wellFormed, proceeds, t0, t1), clock)
  {
    hide AllBacked;
    if LockedAt(g.limiter, t0).None? {
      ProceedKeeps(Check(g, t0), a, clock, t1);
    }
  }

  lemma {:induction false} VerifyKeeps(g: Gate, c: Limits, a: Action, delta: Option<Delta>, clock: int, e: Event)
    requires GateInv(g, clock) && clock <= e.t0 <= e.t1 <= e.t2
    ensures GateInv(VerifyStep(g, c, a, delta, e), e.t2)
  {
    hide AllBacked, Backed;
    if LockedAt(g.limiter, e.t1).None? {
      if Verifies(g, delta, e) {
        var accepted := AcceptCode(g, delta.value, e);
        LogKeeps(g, accepted.log[|g.log|], clock);
        var unlocked := Log(accepted.(unlockedUntil := None), Verified(e.t2));
        LogKeeps(accepted.(unlockedUntil := None), Verified(e.t2), clock);
        JustVerified(accepted.log, e.t2);
        LogKeeps(unlocked, Authorised(a, e.t2, false), clock);
      } else {
        LogKeeps(g, Rejected(e.t1), clock);
      }
    }
  }

  lemma {:induction false} JustVerified(log: seq<Entry>, at: int)
    ensures Backed(log + [Verified(at)], |log| + 1, at)
  {
    assert (log + [Verified(at)])[|log|] == Verified(at);
  }

  lemma {:induction false} ConfirmKeeps(g: Gate, c: Limits, delta: Option<Delta>, clock: int, e: Event)
    requires GateInv(g, clock)
    ensures GateInv(ConfirmStep(g, c, delta, e), clock)
  {
    hide AllBacked, Backed, Trips, Failed;
    if Confirms(g, delta) {
      LogKeeps(g, AcceptCode(g, delta.value, e).log[|g.log|], clock);
    } else {
      LogKeeps(g, Rejected(e.t1), clock);
    }
  }

  lemma {:induction false} MessageKeeps(g: Gate, c: Limits, entered: Option<Action>, delta: Option<Delta>,
                                        clock: int, e: Event)
    requires GateInv(g, clock) && clock <= e.t0 <= e.t1 <= e.t2
    ensures GateInv(MessageStep(g, c, entered, delta, e), e.t2)
  {
    hide AllBacked, Backed, ConfirmStep, VerifyStep, CommandStep, Proceed;
    var h := Check(g, e.t0);
    var k := h.(pending := None);
    if g.pending.Some? && !g.pending.value.Disclaimer? && LockedAt(g.limiter, e.t0).None? {
      if g.pending.value.SetupConfirm? {
        ConfirmKeeps(h, c, delta, clock, e);
      } else if g.pending.value.Awaiting? {
        VerifyKeeps(k, c, g.pending.value.action, delta, clock, e);
      } else if entered.Some? && g.pending.value.AmountEntry? {
        ProceedKeeps(k, entered.value, clock, e.t1);
      } else if entered.Some? {
        CommandKeeps(k, entered.value, true, true, clock, e.t1, e.t2);
      }
    }
  }

  lemma {:induction false} StepKeeps(g: Gate, c: Limits, clock: int, e: Event)
    requires GateInv(g, clock) && clock <= e.t0 <= e.t1 <= e.t2
    ensures GateInv(Step(g, c, e), e.t2)
  {
    hide AllBacked, Backed, MessageStep, CommandStep;
    if e.what.Message? {
      MessageKeeps(g, c, e.what.entered, e.what.delta, clock, e);
    } else if e.what.Command? {
      CommandKeeps(g, e.what.action, e.what.wellFormed, e.what.proceeds, clock, e.t0, e.t1);
    }
  }

  lemma {:induction false} RunKeeps(c: Limits, es: seq<Event>)
    requires ClockForward(es)
    ensures AllBacked(Run(c, es).log)
    ensures es != [] ==> GateInv(Run(c, es), es[|es| - 1].t2)
  {
    hide Step;
    if es != [] {
      var n := |es| - 1;
      ClockPrefix(es);
      RunKeeps(c, es[..n]);
      assert n > 0 ==> es[..n][n - 1] == es[n - 1];
      StepKeeps(Run(c, es[..n]), c, if n > 0 then es[n - 1].t2 else es[n].t0, es[n]);
    }
  }

  /**
    Every reveal, queued withdrawal and whitelist action is authorised while the user is not locked out and within
    TOTP_UNLOCK_MS of an earlier successful verification by that user.
   */
  lemma {:induction false} ActionsAreAuthorised(c: Limits, es: seq<Event>, i: nat)
    requires ClockForward(es) && i < |Run(c, es).log| && Run(c, es).log[i].Authorised?
    ensures var log := Run(c, es).log;
            && !log[i].locked
            && exists j :: 0 <= j < i && log[j].Verified? && log[j].at <= log[i].at < log[j].at + TOTP_UNLOCK_MS
  {
    RunKeeps(c, es);
    assert Backed(Run(c, es).log, i, Run(c, es).log[i].at);
  }

  // ----- counters increase

  ghost predicate Increasing(log: seq<Entry>) {
    forall i, j :: 0 <= i < j < |log| && log[i].Accepted? && log[j].Accepted? && log[i].secret == log[j].secret ==>
      log[i].counter < log[j].counter
  }

  /** Codes accepted so far under the current secret do not exceed its last counter; an unconfirmed secret has none. */
  ghost predicate EntryOk(r: Row, x: Entry)
    requires x.Accepted?
  {
    && x.secret <= r.secret
    && (x.secret == r.secret && r.hasSecret ==> r.enrolled && r.lastCounter.Some? && x.counter <= r.lastCounter.value)
  }

  ghost predicate CountersOk(g: Gate) {
    && Increasing(g.log)
    && (forall i :: 0 <= i < |g.log| && g.log[i].Accepted? ==> g.row.Some? && EntryOk(g.row.value, g.log[i]))
    && (g.pending == Some(SetupConfirm) ==> g.row.Some? && !g.row.value.enrolled)
  }

  /** The handler left the row and the accepted codes alone. */
  ghost predicate SameCodes(g: Gate, h: Gate) {
    && h.row == g.row && (h.pending == Some(SetupConfirm) ==> g.pending == Some(SetupConfirm))
    && |g.log| <= |h.log| && h.log[..|g.log|] == g.log
    && forall i :: |g.log| <= i < |h.log| ==> !h.log[i].Accepted?
  }

  lemma {:induction false} SameCodesKeeps(g: Gate, h: Gate)
    requires CountersOk(g) && SameCodes(g, h)
    ensures CountersOk(h)
  {
  }

  lemma {:induction false} AcceptKeepsCounters(g: Gate, delta: Delta, e: Event)
    requires CountersOk(g) && g.row.Some? && g.row.value.hasSecret
    requires g.row.value.enrolled && g.row.value.lastCounter.Some? ==> Counter(delta, e) > g.row.value.lastCounter.value
    ensures CountersOk(AcceptCode(g.(pending := None), delta, e))
  {
  }

  lemma {:induction false} VerifyKeepsCounters(g: Gate, c: Limits, a: Action, delta: Option<Delta>, e: Event)
    requires CountersOk(g) && g.pending.None?
    ensures CountersOk(VerifyStep(g, c, a, delta, e))
  {
    hide CountersOk, Failed;
    var h := VerifyStep(g, c, a, delta, e);
    if LockedAt(g.limiter, e.t1).None? && Verifies(g, delta, e) {
      AcceptKeepsCounters(g, delta.value, e);
      var accepted := AcceptCode(g.(pending := None), delta.value, e);
      SameCodesKeeps(accepted, h);
    } else {
      SameCodesKeeps(g, h);
    }
  }

  lemma {:induction false} ConfirmKeepsCounters(g: Gate, c: Limits, delta: Option<Delta>, e: Event)
    requires CountersOk(g) && g.pending == Some(SetupConfirm)
    ensures CountersOk(ConfirmStep(g, c, delta, e))
  {
    var h := ConfirmStep(g, c, delta, e);
    if Confirms(g, delta) {
      AcceptKeepsCounters(g.(setupFailures := 0), delta.value, e);
    } else {
      hide CountersOk, Failed, Trips;
      SameCodesKeeps(g, h);
    }
  }

  lemma {:induction false} CommandSameCodes(g: Gate, a: Action, wellFormed: bool, proceeds: bool, t0: int, t1: int)
    ensures SameCodes(g, CommandStep(g, a, wellFormed, proceeds, t0, t1))
  {
  }

  lemma {:induction false} MessageKeepsCounters(g: Gate, c: Limits, entered: Option<Action>, delta: Option<Delta>,
                                                e: Event)
    requires CountersOk(g)
    ensures CountersOk(MessageStep(g, c, entered, delta, e))
  {
    hide CountersOk, ConfirmStep, VerifyStep, CommandStep, EntryOk;
    if g.pending.Some? && !g.pending.value.Disclaimer? && LockedAt(g.limiter, e.t0).None? {
      var h := Check(g, e.t0);
      var k := h.(pending := None);
      SameCodesKeeps(g, h);
      SameCodesKeeps(g, k);
      if g.pending.value.SetupConfirm? {
        ConfirmKeepsCounters(h, c, delta, e);
      } else if g.pending.value.Awaiting? {
        VerifyKeepsCounters(k, c, g.pending.value.action, delta, e);
      } else if g.pending.value.AddressEntry? && entered.Some? {
        CommandSameCodes(k, entered.value, true, true, e.t1, e.t2);
        SameCodesKeeps(k, CommandStep(k, entered.value, true, true, e.t1, e.t2));
      } else if entered.Some? {
        SameCodesKeeps(k, Proceed(k, entered.value, e.t1));
      }
    }
  }

  lemma {:induction false} BeginKeepsCounters(g: Gate)
    requires CountersOk(g) && g.row.Some?
    ensures CountersOk(Begin(g))
  {
  }

  lemma {:induction false} ResetKeepsCounters(g: Gate)
    requires CountersOk(g) && g.row.Some?
    ensures CountersOk(g.(row := Some(Row(g.row.value.secret, false, false, None))))
  {
  }

  lemma {:induction false} AcceptStepKeepsCounters(g: Gate, ataFails: bool)
    requires CountersOk(g)
    ensures CountersOk(AcceptStep(g, ataFails))
  {
  }

  lemma {:induction false} StepKeepsCounters(g: Gate, c: Limits, e: Event)
    requires CountersOk(g)
    ensures CountersOk(Step(g, c, e))
  {
    hide CountersOk, MessageStep, CommandStep, AcceptStep, Begin;
    if e.what.Message? {
      MessageKeepsCounters(g, c, e.what.entered, e.what.delta, e);
    } else if e.what.Command? {
      CommandSameCodes(g, e.what.action, e.what.wellFormed, e.what.proceeds, e.t0, e.t1);
      SameCodesKeeps(g, Step(g, c, e));
    } else if e.what.Accept? {
      AcceptStepKeepsCounters(g, e.what.ataFails);
    } else if e.what.Account? && g.row.Some? && !g.row.value.enrolled {
      BeginKeepsCounters(g);
    } else if e.what.ResetTotp? && g.row.Some? {
      ResetKeepsCounters(g);
    } else {
      SameCodesKeeps(g, Step(g, c, e));
    }
  }

  lemma {:induction false} RunKeepsCounters(c: Limits, es: seq<Event>)
    ensures CountersOk(Run(c, es))
  {
    hide Step;
    if es != [] {
      RunKeepsCounters(c, es[..|es| - 1]);
      hide CountersOk;
      StepKeepsCounters(Run(c, es[..|es| - 1]), c, es[|es| - 1]);
    }
  }

  /** Within one secret the recorded counters strictly increase, setup included, whatever the clocks do. */
  lemma {:induction false} CountersIncrease(c: Limits, es: seq<Event>, i: nat, j: nat)
    requires i < j < |Run(c, es).log| && Run(c, es).log[i].Accepted? && Run(c, es).log[j].Accepted?
    requires Run(c, es).log[i].secret == Run(c, es).log[j].secret
    ensures Run(c, es).log[i].counter < Run(c, es).log[j].counter
  {
    RunKeepsCounters(c, es);
  }

  // ----- what a code decides

  /**
    The code for an awaited action decides it: if it verifies, exactly that action is authorised, at once, and the user
    is unlocked for exactly TOTP_UNLOCK_MS; if not, the failure is recorded and nothing is authorised.
   */
  lemma {:induction false} CodeDecides(g: Gate, c: Limits, e: Event, a: Action)
    requires g.pending == Some(Awaiting(a)) && e.what.Message? && e.t0 <= e.t1 && LockedAt(g.limiter, e.t0).None?
    ensures var h := Step(g, c, e);
            && h.pending.None?
            && (Verifies(g, e.what.delta, e) ==>
                  && |h.log| == |g.log| + 3 && h.log[|g.log| + 2] == Authorised(a, e.t2, false)
                  && h.limiter == CLEAN && forall t :: Unlocked(h, t) <==> t < e.t2 + TOTP_UNLOCK_MS)
            && (!Verifies(g, e.what.delta, e) ==>
                  && h.log == g.log + [Rejected(e.t1)] && h.unlockedUntil == g.unlockedUntil && h.row == g.row
                  && h.limiter == Failed(Checked(g.limiter, e.t0), c, e.t1))
  {
    hide Failed, StepOf;
  }

  /** What an event asks for, or answers for. */
  predicate AsksFor(e: Event, a: Action) {
    || (e.what.Command? && e.what.action == a)
    || (e.what.Message? && e.what.entered == Some(a))
  }

  ghost predicate AskedIn(es: seq<Event>, a: Action) {
    exists k :: 0 <= k < |es| && AsksFor(es[k], a)
  }

  ghost predicate PendingAsked(g: Gate, es: seq<Event>) {
    && (g.pending.Some? && g.pending.value.Awaiting? ==> AskedIn(es, g.pending.value.action))
    && (forall i :: 0 <= i < |g.log| && g.log[i].Authorised? ==> AskedIn(es, g.log[i].action))
  }

  /** A handler awaits or authorises only what was awaited, or what its own event asks for. */
  ghost predicate StaysOnTopic(g: Gate, h: Gate, e: Event) {
    && (h.pending.Some? && h.pending.value.Awaiting? ==>
          h.pending == g.pending || AsksFor(e, h.pending.value.action))
    && |g.log| <= |h.log| && h.log[..|g.log|] == g.log
    && (forall i :: |g.log| <= i < |h.log| && h.log[i].Authorised? ==>
          g.pending == Some(Awaiting(h.log[i].action)) || AsksFor(e, h.log[i].action))
  }

  lemma {:induction false} CommandOnTopic(g: Gate, a: Action, wellFormed: bool, proceeds: bool, t0: int, t1: int,
                                          e: Event)
    requires AsksFor(e, a)
    ensures StaysOnTopic(g, CommandStep(g, a, wellFormed, proceeds, t0, t1), e)
  {
  }

  lemma {:induction false} MessageOnTopic(g: Gate, c: Limits, e: Event)
    requires e.what.Message?
    ensures StaysOnTopic(g, MessageStep(g, c, e.what.entered, e.what.delta, e), e)
  {
    hide StepOf, Failed, Trips, CommandStep;
    if g.pending.Some? && g.pending.value.AddressEntry? && e.what.entered.Some? {
      CommandOnTopic(Check(g, e.t0).(pending := None), e.what.entered.value, true, true, e.t1, e.t2, e);
    }
  }

  lemma {:induction false} StepOnTopic(g: Gate, c: Limits, e: Event)
    ensures StaysOnTopic(g, Step(g, c, e), e)
  {
    hide MessageStep, CommandStep;
    if e.what.Message? {
      MessageOnTopic(g, c, e);
    } else if e.what.Command? {
      CommandOnTopic(g, e.what.action, e.what.wellFormed, e.what.proceeds, e.t0, e.t1, e);
    }
  }

  lemma {:induction false} RunOnTopic(c: Limits, es: seq<Event>)
    ensures PendingAsked(Run(c, es), es)
  {
    if es != [] {
      var n := |es| - 1;
      var g, h := Run(c, es[..n]), Run(c, es);
      RunOnTopic(c, es[..n]);
      StepOnTopic(g, c, es[n]);
      hide Step, Run, AsksFor;
      forall a | AskedIn(es[..n], a) ensures AskedIn(es, a) {
        var k :| 0 <= k < n && AsksFor(es[..n][k], a);
        assert AsksFor(es[k], a);
      }
      forall i | 0 <= i < |h.log| && h.log[i].Authorised? ensures AskedIn(es, h.log[i].action) {
        if i < |g.log| {
          assert h.log[i] == h.log[..|g.log|][i];
        }
      }
    }
  }

  /** Every action authorised in a run is one the user asked for by a command or entered as an amount or an address. */
  lemma {:induction false} ActionsWereAsked(c: Limits, es: seq<Event>, i: nat)
    requires i < |Run(c, es).log| && Run(c, es).log[i].Authorised?
    ensures exists k :: 0 <= k < |es| && AsksFor(es[k], Run(c, es).log[i].action)
  {
    RunOnTopic(c, es);
    assert AskedIn(es, Run(c, es).log[i].action);
  }

  /** After an operator's reset no command does anything and no code is accepted, until a new secret is handed out. */
  lemma {:induction false} ResetRevokes(g: Gate, c: Limits, reset: Event, e: Event, delta: Option<Delta>)
    requires reset.what.ResetTotp? && (e.what.Command? || e.what.AskAmount?)
    ensures var h := Step(g, c, reset);
            Step(h, c, e) == h && !Verifies(h, delta, e) && !Confirms(h, delta)
  {
  }

  /** What was awaited is forgotten by a cancel, a declined disclaimer and a restart: the next message does nothing. */
  lemma {:induction false} CancelForgets(g: Gate, c: Limits, cancel: Event, e: Event)
    requires cancel.what.ClearPending? || cancel.what.Decline? || cancel.what.Restart?
    requires e.what.Message?
    ensures Step(Step(g, c, cancel), c, e) == Step(g, c, cancel)
    ensures Step(g, c, cancel).log == g.log && Step(g, c, cancel).row == g.row
    ensures Step(g, c, cancel).setupFailures == if cancel.what.ClearPending? then g.setupFailures else 0
  {
  }

  /** A restart ends every unlock: the next command of an enrolled user waits for a code and authorises nothing. */
  lemma {:induction false} RestartLocks(g: Gate, c: Limits, restart: Event, e: Event)
    requires restart.what.Restart? && Enrolled(g) && e.what.Command? && e.what.wellFormed && e.what.proceeds
    ensures var h := Step(Step(g, c, restart), c, e); h.pending == Some(Awaiting(e.what.action)) && h.log == g.log
  {
  }

  /**
    A button's entry leads where the typed command would: an unlocked user's amount or address is acted on at once,
    anyone else is asked for a code for exactly it; an address does nothing before enrolment.
   */
  lemma {:induction false} ButtonsLeadOn(g: Gate, c: Limits, button: Event, e: Event, a: Action)
    requires button.what.SetPending? && e.what.Message? && e.what.entered == Some(a)
    requires e.t0 <= e.t1 <= e.t2 && LockedAt(g.limiter, e.t0).None?
    ensures var h := Step(Step(g, c, button), c, e);
            var at := if button.what.amount then e.t1 else e.t2;
            if !button.what.amount && !Enrolled(g) then h.pending.None? && h.log == g.log
            else if Unlocked(g, at) then h.pending.None? && h.log == g.log + [Authorised(a, at, false)]
            else h.pending == Some(Awaiting(a)) && h.log == g.log
  {
  }

  /** A withdrawal without an amount asks for one, and the amount then counts as the command with it would. */
  lemma {:induction false} AskingLeadsOn(g: Gate, c: Limits, ask: Event, e: Event, a: Action)
    requires ask.what.AskAmount? && ask.what.wellFormed && Enrolled(g) && LockedAt(g.limiter, ask.t0).None?
    requires e.what.Message? && e.what.entered == Some(a) && ask.t0 <= e.t0 <= e.t1
    ensures var h := Step(Step(g, c, ask), c, e);
            if Unlocked(g, e.t1) then h.pending.None? && h.log == g.log + [Authorised(a, e.t1, false)]
            else h.pending == Some(Awaiting(a)) && h.log == g.log
  {
  }

  /** Accepting the disclaimer hands out a secret never handed out before, unconfirmed, and five fresh tries for it. */
  lemma {:induction false} AcceptHandsOutASecret(c: Limits, es: seq<Event>, e: Event)
    requires e.what.Accept? && Run(c, es).pending == Some(Disclaimer)
    ensures var g, h := Run(c, es), Step(Run(c, es), c, e);
            && h.log == g.log && h.row.Some? && !h.row.value.enrolled
            && if g.row.None? && e.what.ataFails then h.pending.None? && !h.row.value.hasSecret
               else
                 && h.pending == Some(SetupConfirm) && h.row.value.hasSecret && h.setupFailures == 0
                 && forall i :: 0 <= i < |g.log| && g.log[i].Accepted? ==> g.log[i].secret < h.row.value.secret
  {
    RunKeepsCounters(c, es);
  }

  /** The code that confirms a setup enrols the user, clears both failure counts and does not unlock anything. */
  lemma {:induction false} ConfirmEnrols(g: Gate, c: Limits, e: Event)
    requires g.pending == Some(SetupConfirm) && g.row.Some? && g.row.value.hasSecret && LockedAt(g.limiter, e.t0).None?
    requires e.what.Message? && e.what.delta.Some?
    ensures var h := Step(g, c, e);
            && Enrolled(h) && h.row.value.secret == g.row.value.secret && h.pending.None?
            && h.row.value.lastCounter == Some(StepOf(e.countedAt) + e.what.delta.value)
            && h.setupFailures == 0 && h.limiter == CLEAN && h.unlockedUntil == g.unlockedUntil
  {
  }

  ghost predicate FewFailures(g: Gate) {
    g.setupFailures < TOTP_SETUP_MAX_FAILURES
  }

  /** In every run a setup in progress has seen fewer failures than end it. */
  lemma {:induction false} SetupFailuresStayBelow(c: Limits, es: seq<Event>)
    ensures FewFailures(Run(c, es))
  {
    if es != [] {
      SetupFailuresStayBelow(c, es[..|es| - 1]);
      hide Failed, Trips, StepOf;
    }
  }
}
