/**
  How many codes can be guessed, and whether one can be used twice, over every run of the access gate: setup and runtime
  attempts together (src/vault/commands.ts:153-189,333-432, src/vault/rateLimiter.ts:27-63, src/vault/totp.ts:26-53).
 */
module AccessLimits {
  import opened Prelude
  import opened RateLimiter
  import opened AccessGate

  // ----- what a handler adds to the log

  /** A recorded counter is off from the code's own time step by as many steps as passed between the two clock reads. */
  ghost predicate Drifts(x: Entry, e: AccessGate.Event) {
    x.Accepted? ==> x.counter - x.step == StepOf(e.countedAt) - StepOf(e.validatedAt)
  }

  ghost predicate Grows(g: Gate, h: Gate, e: AccessGate.Event) {
    && |g.log| <= |h.log| && h.log[..|g.log|] == g.log
    && forall i :: |g.log| <= i < |h.log| ==> Drifts(h.log[i], e)
  }

  lemma {:induction false} CommandGrows(g: Gate, a: Action, wellFormed: bool, proceeds: bool, t0: int, t1: int,
                                        e: AccessGate.Event)
    ensures Grows(g, CommandStep(g, a, wellFormed, proceeds, t0, t1), e)
  {
  }

  lemma {:induction false} VerifyGrows(g: Gate, c: Limits, a: Action, delta: Option<Delta>, e: AccessGate.Event)
    ensures Grows(g, VerifyStep(g, c, a, delta, e), e)
  {
    hide StepOf, Failed, Checked;
  }

  lemma {:induction false} ConfirmGrows(g: Gate, c: Limits, delta: Option<Delta>, e: AccessGate.Event)
    ensures Grows(g, ConfirmStep(g, c, delta, e), e)
  {
  }

  lemma {:induction false} StepGrows(g: Gate, c: Limits, e: AccessGate.Event)
    ensures Grows(g, Step(g, c, e), e)
  {
    hide CommandStep, VerifyStep, ConfirmStep, StepOf;
    if e.what.Command? {
      CommandGrows(g, e.what.action, e.what.wellFormed, e.what.proceeds, e.t0, e.t1, e);
    } else if e.what.Message? {
      var h := Check(g, e.t0);
      var k := h.(pending := None);
      ConfirmGrows(h, c, e.what.delta, e);
      if e.what.entered.Some? {
        CommandGrows(k, e.what.entered.value, true, true, e.t1, e.t2, e);
      }
      if g.pending.Some? && g.pending.value.Awaiting? {
        VerifyGrows(k, c, g.pending.value.action, e.what.delta, e);
      }
    }
  }

  // ----- a code is used once

  /** No time step's code is accepted twice under one secret (section 5.2 of RFC 6238). */
  ghost predicate UsedOnce(log: seq<Entry>) {
    forall i, j :: 0 <= i < j < |log| && log[i].Accepted? && log[j].Accepted? && log[i].secret == log[j].secret ==>
      log[i].step != log[j].step
  }

  /** Every verification reads the clock twice, as one of these pairs. */
  ghost predicate ReadsAmong(es: seq<AccessGate.Event>, clocks: iset<(int, int)>) {
    forall k :: 0 <= k < |es| ==> (es[k].validatedAt, es[k].countedAt) in clocks
  }

  ghost predicate SameStep(clocks: iset<(int, int)>) {
    forall p :: p in clocks ==> StepOf(p.0) == StepOf(p.1)
  }

  lemma {:induction false} NoDrift(c: Limits, es: seq<AccessGate.Event>, clocks: iset<(int, int)>)
    requires ReadsAmong(es, clocks) && SameStep(clocks)
    ensures forall i :: 0 <= i < |Run(c, es).log| && Run(c, es).log[i].Accepted? ==>
        Run(c, es).log[i].step == Run(c, es).log[i].counter
  {
    hide Step, StepOf;
    if es != [] {
      var n := |es| - 1;
      NoDrift(c, es[..n], clocks);
      var g, h := Run(c, es[..n]), Run(c, es);
      StepGrows(g, c, es[n]);
      assert (es[n].validatedAt, es[n].countedAt) in clocks;
      forall i | 0 <= i < |h.log| && h.log[i].Accepted? ensures h.log[i].step == h.log[i].counter {
        if i < |g.log| {
          assert h.log[i] == h.log[..|g.log|][i];
        } else {
          assert Drifts(h.log[i], es[n]);
        }
      }
    }
  }

  function At(what: What, v1: int, v2: int): AccessGate.Event {
    AccessGate.Event(what, v1, v1, v2, v1, v2)
  }

  /** Enrol with the code of a step, then present it again while the clock moves on between the two reads. */
  function Replay(v1: int, v2: int): seq<AccessGate.Event> {
    [At(Account, v1, v1), At(Accept(false), v1, v1), At(Message(None, Some(0)), v1, v1),
     At(Command(DepositReveal, true, true), v1, v1),
     At(Message(None, Some(0)), v1, v2)]
  }

  lemma {:induction false} RunSnoc(c: Limits, es: seq<AccessGate.Event>, e: AccessGate.Event)
    ensures Run(c, es + [e]) == Step(Run(c, es), c, e)
  {
  }

  lemma {:induction false} ReplayEnrols(c: Limits, v1: int, v2: int)
    ensures var k := StepOf(v1);
            Run(c, Replay(v1, v2)[..4]) ==
              Gate(Some(Row(1, true, true, Some(k))), Some(Awaiting(DepositReveal)), 0, None, CLEAN,
                   [Accepted(v1, 1, k, k)])
  {
    hide StepOf;
    var es := Replay(v1, v2);
    assert es[..0] == [] && es[..1] == es[..0] + [es[0]] && es[..2] == es[..1] + [es[1]];
    assert es[..3] == es[..2] + [es[2]] && es[..4] == es[..3] + [es[3]];
    RunSnoc(c, es[..0], es[0]);
    RunSnoc(c, es[..1], es[1]);
    RunSnoc(c, es[..2], es[2]);
    RunSnoc(c, es[..3], es[3]);
  }

  /** The straddling read stores a later counter, so the last one used does not stop the code. */
  lemma {:induction false} ReplayIsAccepted(c: Limits, v1: int, v2: int)
    requires v1 <= v2 && StepOf(v1) < StepOf(v2)
    ensures AccessGate.ClockForward(Replay(v1, v2)) && !UsedOnce(Run(c, Replay(v1, v2)).log)
  {
    ReplayEnrols(c, v1, v2);
    hide StepOf;
    var es := Replay(v1, v2);
    var g := Run(c, es[..4]);
    assert es == es[..4] + [es[4]];
    RunSnoc(c, es[..4], es[4]);
    hide Run;
    var k := StepOf(v1);
    var log := Run(c, es).log;
    assert Verifies(Check(g, v1).(pending := None), Some(0), es[4]);
    assert log == [Accepted(v1, 1, k, k), Accepted(v1, 1, StepOf(v2), k), Verified(v2),
                   Authorised(DepositReveal, v2, false)];
    assert log[0].step == log[1].step;
  }

  lemma {:induction false} StepsForward(v1: int, v2: int)
    requires v1 <= v2
    ensures StepOf(v1) <= StepOf(v2)
  {
  }

  /**
    No code is accepted twice under one secret, in any run whose clock never goes back, if and only if the clock never
    enters a new time step between a verification's two reads.
   */
  lemma {:induction false} UsedOnceIff(c: Limits, clocks: iset<(int, int)>)
    requires (forall v :: (v, v) in clocks) && (forall p :: p in clocks ==> p.0 <= p.1)
    ensures (forall es :: AccessGate.ClockForward(es) && ReadsAmong(es, clocks) ==> UsedOnce(Run(c, es).log)) <==>
        SameStep(clocks)
  {
    hide StepOf, Run;
    if SameStep(clocks) {
      forall es | AccessGate.ClockForward(es) && ReadsAmong(es, clocks) ensures UsedOnce(Run(c, es).log) {
        NoDrift(c, es, clocks);
        RunKeepsCounters(c, es);
      }
    } else {
      var p :| p in clocks && StepOf(p.0) != StepOf(p.1);
      StepsForward(p.0, p.1);
      ReplayIsAccepted(c, p.0, p.1);
      assert ReadsAmong(Replay(p.0, p.1), clocks);
    }
  }

  // ----- guesses in a short interval

  predicate InInterval(t: int, a: int, len: int) {
    a <= t < a + len
  }

  function RejectedIn(log: seq<Entry>, a: int, len: int): nat {
    if log == [] then 0
    else RejectedIn(log[..|log| - 1], a, len)
         + if log[|log| - 1].Rejected? && InInterval(log[|log| - 1].at, a, len) then 1 else 0
  }

  lemma {:induction false} RejectedAppend(log: seq<Entry>, x: Entry, a: int, len: int)
    ensures RejectedIn(log + [x], a, len) == RejectedIn(log, a, len) +
        if x.Rejected? && InInterval(x.at, a, len) then 1 else 0
  {
  }

  lemma {:induction false} NoneRejected(log: seq<Entry>, a: int, len: int)
    requires forall i :: 0 <= i < |log| && log[i].Rejected? ==> log[i].at < a
    ensures RejectedIn(log, a, len) == 0
  {
    if log != [] {
      NoneRejected(log[..|log| - 1], a, len);
    }
  }

  ghost predicate NoSuccessIn(log: seq<Entry>, a: int, len: int) {
    forall i :: 0 <= i < |log| && log[i].Accepted? ==> !InInterval(log[i].at, a, len)
  }

  /** An interval, and how many rejections earlier processes may have left in it. */
  datatype Span = Span(a: int, len: int, earlier: nat)

  /** The rejections beyond the earlier ones. */
  function Beyond(n: nat, earlier: nat): nat {
    if n > earlier then n - earlier else 0
  }

  ghost predicate Past(log: seq<Entry>, clock: int) {
    forall i :: 0 <= i < |log| && log[i].Rejected? ==> log[i].at <= clock
  }

  /**
    At most Most rejections in the interval beyond the earlier ones, and before its end the limiter accounts for all of
    them.
   */
  ghost predicate Bounded(g: Gate, c: Limits, v: Span, clock: int) {
    var n := RejectedIn(g.log, v.a, v.len);
    && n <= v.earlier + Most(c) && Past(g.log, clock)
    && (clock < v.a + v.len ==> Tracks(g.limiter, c, v.a, v.len, Beyond(n, v.earlier)))
  }

  lemma {:induction false} BoundedLater(g: Gate, c: Limits, v: Span, clock: int, later: int)
    requires Bounded(g, c, v, clock) && clock <= later
    ensures Bounded(g, c, v, later)
  {
  }

  lemma {:induction false} CheckBounded(g: Gate, c: Limits, v: Span, clock: int, at: int)
    requires Bounded(g, c, v, clock) && clock <= at
    ensures Bounded(Check(g, at), c, v, at)
  {
  }

  /** Entries of other kinds, and other fields, do not matter. */
  lemma {:induction false} LogBounded(g: Gate, c: Limits, v: Span, clock: int, x: Entry)
    requires Bounded(g, c, v, clock) && !x.Rejected?
    ensures Bounded(Log(g, x), c, v, clock)
  {
  }

  lemma {:induction false} RejectBounded(g: Gate, c: Limits, v: Span, clock: int, at: int)
    requires Bounded(g, c, v, clock) && clock <= at && LockedAt(g.limiter, at).None?
    requires v.len <= c.windowMs && v.len <= c.lockoutMs
    ensures Bounded(Reject(g, c, at), c, v, at)
  {
    var n := RejectedIn(g.log, v.a, v.len);
    RejectedAppend(g.log, Rejected(at), v.a, v.len);
    hide RejectedIn;
    if InInterval(at, v.a, v.len) {
      FailTracks(g.limiter, c, v.a, v.len, Beyond(n, v.earlier), at);
      hide Failed;
    } else if at < v.a {
      NoneRejected(g.log, v.a, v.len);
      TracksNone(Failed(g.limiter, c, at), c, v.a, v.len);
    }
  }

  lemma {:induction false} AcceptBounded(g: Gate, c: Limits, v: Span, clock: int, delta: Delta, e: AccessGate.Event)
    requires Bounded(g, c, v, clock) && clock <= e.t1 && g.row.Some? && !InInterval(e.t1, v.a, v.len)
    ensures Bounded(AcceptCode(g, delta, e), c, v, e.t1)
  {
    var h := AcceptCode(g, delta, e);
    RejectedAppend(g.log, h.log[|g.log|], v.a, v.len);
    if e.t1 < v.a {
      NoneRejected(g.log, v.a, v.len);
      TracksNone(CLEAN, c, v.a, v.len);
    }
  }

  lemma {:induction false} ProceedBounded(g: Gate, c: Limits, v: Span, clock: int, a: Action, at: int)
    requires Bounded(g, c, v, clock)
    ensures Bounded(Proceed(g, a, at), c, v, clock)
  {
    LogBounded(g, c, v, clock, Authorised(a, at, LockedAt(g.limiter, at).Some?));
  }

  lemma {:induction false} CommandBounded(g: Gate, c: Limits, v: Span, clock: int, a: Action, wellFormed: bool,
                                          proceeds: bool, t0: int, t1: int)
    requires Bounded(g, c, v, clock) && clock <= t0
    ensures Bounded(CommandStep(g, a, wellFormed, proceeds, t0, t1), c, v, t0)
  {
    CheckBounded(g, c, v, clock, t0);
    BoundedLater(g, c, v, clock, t0);
    hide Bounded;
    ProceedBounded(Check(g, t0), c, v, t0, a, t1);
  }

  lemma {:induction false} VerifyBounded(g: Gate, c: Limits, v: Span, clock: int, a: Action, delta: Option<Delta>,
                                         e: AccessGate.Event)
    requires Bounded(g, c, v, clock) && clock <= e.t1 && v.len <= c.windowMs && v.len <= c.lockoutMs
    requires NoSuccessIn(VerifyStep(g, c, a, delta, e).log, v.a, v.len)
    ensures Bounded(VerifyStep(g, c, a, delta, e), c, v, e.t1)
  {
    if LockedAt(g.limiter, e.t1).Some? {
      BoundedLater(g, c, v, clock, e.t1);
    } else if Verifies(g, delta, e) {
      var accepted := AcceptCode(g, delta.value, e);
      var h := VerifyStep(g, c, a, delta, e);
      assert h.log[|g.log|] == accepted.log[|g.log|];
      AcceptBounded(g, c, v, clock, delta.value, e);
      var unlocked := accepted.(unlockedUntil := Some(e.t2 + TOTP_UNLOCK_MS));
      assert Bounded(unlocked, c, v, e.t1);
      hide Bounded;
      LogBounded(unlocked, c, v, e.t1, Verified(e.t2));
      LogBounded(Log(unlocked, Verified(e.t2)), c, v, e.t1, Authorised(a, e.t2, false));
    } else {
      CheckBounded(g, c, v, clock, e.t1);
      hide Bounded;
      RejectBounded(Check(g, e.t1), c, v, e.t1, e.t1);
    }
  }

  lemma {:induction false} ConfirmBounded(g: Gate, c: Limits, v: Span, clock: int, delta: Option<Delta>,
                                          e: AccessGate.Event)
    requires Bounded(g, c, v, clock) && clock <= e.t1 && v.len <= c.windowMs && v.len <= c.lockoutMs
        && LockedAt(g.limiter, e.t1).None?
    requires NoSuccessIn(ConfirmStep(g, c, delta, e).log, v.a, v.len)
    ensures Bounded(ConfirmStep(g, c, delta, e), c, v, e.t1)
  {
    hide Failed, Trips, RejectedIn, Tracks;
    if Confirms(g, delta) {
      var h := ConfirmStep(g, c, delta, e);
      assert h.log[|g.log|].Accepted?;
      AcceptBounded(g, c, v, clock, delta.value, e);
    } else {
      RejectBounded(g, c, v, clock, e.t1);
    }
  }

  lemma {:induction false} SameLimits(g: Gate, h: Gate, c: Limits, v: Span, clock: int)
    requires Bounded(g, c, v, clock) && h.limiter == g.limiter && h.log == g.log
    ensures Bounded(h, c, v, clock)
  {
  }

  lemma {:induction false} MessageBounded(g: Gate, c: Limits, v: Span, clock: int, e: AccessGate.Event)
    requires Bounded(g, c, v, clock) && clock <= e.t0 <= e.t1 && v.len <= c.windowMs && v.len <= c.lockoutMs
        && e.what.Message?
    requires NoSuccessIn(Step(g, c, e).log, v.a, v.len)
    ensures Bounded(Step(g, c, e), c, v, e.t1)
  {
    hide Bounded, NoSuccessIn, VerifyStep, ConfirmStep, CommandStep, Proceed;
    if g.pending.None? || g.pending.value.Disclaimer? || LockedAt(g.limiter, e.t0).Some? {
      BoundedLater(g, c, v, clock, e.t1);
    } else {
      var h := Check(g, e.t0);
      var k := h.(pending := None);
      CheckBounded(g, c, v, clock, e.t0);
      SameLimits(h, k, c, v, e.t0);
      BoundedLater(k, c, v, e.t0, e.t1);
      if g.pending.value.SetupConfirm? {
        ConfirmBounded(h, c, v, e.t0, e.what.delta, e);
      } else if g.pending.value.Awaiting? {
        VerifyBounded(k, c, v, e.t0, g.pending.value.action, e.what.delta, e);
      } else if e.what.entered.Some? {
        ProceedBounded(k, c, v, e.t1, e.what.entered.value, e.t1);
        CommandBounded(k, c, v, e.t0, e.what.entered.value, true, true, e.t1, e.t2);
      }
    }
  }

  lemma {:induction false} StepBounded(g: Gate, c: Limits, v: Span, clock: int, e: AccessGate.Event)
    requires Bounded(g, c, v, clock) && clock <= e.t0 <= e.t1 <= e.t2 && v.len <= c.windowMs && v.len <= c.lockoutMs
    requires NoSuccessIn(Step(g, c, e).log, v.a, v.len) && !e.what.Restart?
    ensures Bounded(Step(g, c, e), c, v, e.t2)
  {
    hide Bounded, NoSuccessIn, CommandStep, MessageStep;
    if e.what.Message? {
      MessageBounded(g, c, v, clock, e);
      BoundedLater(Step(g, c, e), c, v, e.t1, e.t2);
    } else if e.what.Command? {
      CommandBounded(g, c, v, clock, e.what.action, e.what.wellFormed, e.what.proceeds, e.t0, e.t1);
      BoundedLater(Step(g, c, e), c, v, e.t0, e.t2);
    } else {
      CheckBounded(g, c, v, clock, e.t0);
      BoundedLater(Check(g, e.t0), c, v, e.t0, e.t2);
      BoundedLater(g, c, v, clock, e.t2);
      var h := Step(g, c, e);
      if h.limiter == g.limiter {
        SameLimits(g, h, c, v, e.t2);
      } else {
        SameLimits(Check(g, e.t0), h, c, v, e.t2);
      }
    }
  }

  function AfterRestart(v: Span, c: Limits, at: int): Span {
    if InInterval(at, v.a, v.len) then v.(earlier := v.earlier + Most(c)) else v
  }

  /** A restart within the interval forgets at most Most rejections. */
  lemma {:induction false} RestartBounded(g: Gate, c: Limits, v: Span, clock: int, e: AccessGate.Event)
    requires Bounded(g, c, v, clock) && clock <= e.t2 && e.what.Restart?
    ensures Bounded(Step(g, c, e), c, AfterRestart(v, c, e.t2), e.t2)
  {
    if e.t2 < v.a {
      NoneRejected(g.log, v.a, v.len);
    }
    TracksNone(CLEAN, c, v.a, v.len);
  }

  function RestartsIn(es: seq<AccessGate.Event>, a: int, len: int): nat {
    if es == [] then 0
    else
      var e := es[|es| - 1];
      RestartsIn(es[..|es| - 1], a, len) + if e.what.Restart? && InInterval(e.t2, a, len) then 1 else 0
  }

  function SpanOf(c: Limits, es: seq<AccessGate.Event>, a: int, len: int): Span {
    Span(a, len, RestartsIn(es, a, len) * Most(c))
  }

  lemma {:induction false} SpanGrows(c: Limits, es: seq<AccessGate.Event>, a: int, len: int)
    requires es != []
    ensures var e := es[|es| - 1];
            var before := SpanOf(c, es[..|es| - 1], a, len);
            SpanOf(c, es, a, len) == if e.what.Restart? then AfterRestart(before, c, e.t2) else before
  {
    var r := RestartsIn(es[..|es| - 1], a, len);
    assert (r + 1) * Most(c) == r * Most(c) + Most(c);
  }

  lemma {:induction false} EmptyBounded(c: Limits, a: int, len: int, clock: int)
    ensures Bounded(Run(c, []), c, SpanOf(c, [], a, len), clock)
  {
    TracksNone(CLEAN, c, a, len);
  }

  lemma {:induction false} NextBounded(g: Gate, c: Limits, v: Span, clock: int, e: AccessGate.Event)
    requires Bounded(g, c, v, clock) && clock <= e.t0 <= e.t1 <= e.t2 && v.len <= c.windowMs && v.len <= c.lockoutMs
    requires NoSuccessIn(Step(g, c, e).log, v.a, v.len)
    ensures Bounded(Step(g, c, e), c, if e.what.Restart? then AfterRestart(v, c, e.t2) else v, e.t2)
  {
    hide Bounded, Step;
    if e.what.Restart? {
      RestartBounded(g, c, v, clock, e);
    } else {
      StepBounded(g, c, v, clock, e);
    }
  }

  lemma {:induction false} EarlierSuccesses(c: Limits, es: seq<AccessGate.Event>, a: int, len: int)
    requires es != [] && NoSuccessIn(Run(c, es).log, a, len)
    ensures NoSuccessIn(Run(c, es[..|es| - 1]).log, a, len)
  {
    var g := Run(c, es[..|es| - 1]);
    StepGrows(g, c, es[|es| - 1]);
    hide Step;
    forall i | 0 <= i < |g.log| && g.log[i].Accepted? ensures !InInterval(g.log[i].at, a, len) {
      assert Run(c, es).log[i] == Run(c, es).log[..|g.log|][i];
    }
  }

  lemma {:induction false} RunBounded(c: Limits, es: seq<AccessGate.Event>, a: int, len: int)
    requires AccessGate.ClockForward(es) && len <= c.windowMs && len <= c.lockoutMs
    requires NoSuccessIn(Run(c, es).log, a, len)
    ensures es != [] ==> Bounded(Run(c, es), c, SpanOf(c, es, a, len), es[|es| - 1].t2)
  {
    hide Step, Bounded, SpanOf, NoSuccessIn, AfterRestart;
    if es != [] {
      var n := |es| - 1;
      var g, v := Run(c, es[..n]), SpanOf(c, es[..n], a, len);
      ClockPrefix(es);
      EarlierSuccesses(c, es, a, len);
      RunBounded(c, es[..n], a, len);
      if n == 0 {
        assert es[..n] == [];
        EmptyBounded(c, a, len, es[n].t0);
      } else {
        assert es[..n][n - 1] == es[n - 1];
        BoundedLater(g, c, v, es[n - 1].t2, es[n].t0);
      }
      SpanGrows(c, es, a, len);
      SpanKeeps(c, es[..n], a, len);
      NextBounded(g, c, v, es[n].t0, es[n]);
    }
  }

  lemma {:induction false} SpanKeeps(c: Limits, es: seq<AccessGate.Event>, a: int, len: int)
    ensures SpanOf(c, es, a, len).a == a && SpanOf(c, es, a, len).len == len
  {
  }

  /**
    In any half-open interval no longer than the window and the lockout in which the user has no success, at most
    threshold codes of that user (one, if the threshold is not positive) are evaluated and rejected, at setup and at
    runtime together, for every process that serves it: one, and one more for each restart in the interval.
   */
  lemma {:induction false} GuessesAreBounded(c: Limits, es: seq<AccessGate.Event>, a: int, len: int)
    requires AccessGate.ClockForward(es) && len <= c.windowMs && len <= c.lockoutMs
    requires NoSuccessIn(Run(c, es).log, a, len)
    ensures RejectedIn(Run(c, es).log, a, len) <= (1 + RestartsIn(es, a, len)) * Most(c)
  {
    RunBounded(c, es, a, len);
    OneMoreProcess(RestartsIn(es, a, len), Most(c));
    hide Run, Most, RestartsIn, RejectedIn, Tracks;
    if es == [] {
      NothingYet(c, a, len);
    }
  }

  lemma {:induction false} OneMoreProcess(restarts: nat, most: nat)
    ensures (1 + restarts) * most == restarts * most + most
  {
  }

  lemma {:induction false} NothingYet(c: Limits, a: int, len: int)
    ensures RejectedIn(Run(c, []).log, a, len) == 0
  {
  }

  // ----- and the bound is reached

  const WRONG := AccessGate.Event(Message(None, None), 0, 0, 0, 0, 0)
  const ASK := AccessGate.Event(Command(DepositReveal, true, true), 0, 0, 0, 0, 0)
  const REBOOT := AccessGate.Event(Restart, 0, 0, 0, 0, 0)

  /** Enrolled just before time 0. */
  const ENROL: seq<AccessGate.Event> := [At(Account, -1, -1), At(Accept(false), -1, -1),
                                         At(Message(None, Some(0)), -1, -1)]

  /** k wrong codes at time 0, each asked for by a command. */
  function Guesses(k: nat): seq<AccessGate.Event> {
    if k == 0 then [] else Guesses(k - 1) + [ASK] + [WRONG]
  }

  /** One process makes as many guesses as it is allowed; then the bot restarts, n times over. */
  function Siege(c: Limits, n: nat): seq<AccessGate.Event> {
    if n == 0 then ENROL + Guesses(Most(c)) else Siege(c, n - 1) + [REBOOT] + Guesses(Most(c))
  }

  function Zeros(n: nat): seq<int> {
    seq(n, _ => 0)
  }

  /** An enrolled user who is not unlocked. */
  ghost predicate Served(g: Gate) {
    Enrolled(g) && g.row.value.hasSecret && g.unlockedUntil.None?
  }

  /** With k failures at time 0, not yet locked out. */
  ghost predicate Trying(g: Gate, k: nat) {
    Served(g) && g.limiter == Limiter(Zeros(k), None)
  }

  /** n more rejections at time 0, and no success. */
  ghost predicate Rejects(before: seq<Entry>, after: seq<Entry>, n: nat) {
    after == before + seq(n, _ => Rejected(0))
  }

  lemma {:induction false} RecentZeros(k: nat, windowMs: int)
    requires windowMs >= 0
    ensures Recent(Zeros(k), windowMs, 0) == Zeros(k)
  {
    if k > 0 {
      RecentZeros(k - 1, windowMs);
      assert Zeros(k)[..k - 1] == Zeros(k - 1);
    }
  }

  /** One more wrong code: rejected, and no lockout yet unless it was the last one allowed. */
  lemma {:induction false} OneGuess(g: Gate, c: Limits, k: nat)
    requires Trying(g, k) && k < Most(c) && c.windowMs >= 0
    ensures var h := Step(Step(g, c, ASK), c, WRONG);
            h.log == g.log + [Rejected(0)] && Served(h) && (k + 1 < Most(c) ==> Trying(h, k + 1))
  {
    RecentZeros(k, c.windowMs);
    hide Recent;
    assert Zeros(k) + [0] == Zeros(k + 1);
    var asked := Step(g, c, ASK);
    assert asked == g.(pending := Some(Awaiting(DepositReveal)));
  }

  /** A user setting up, with n wrong codes at time 0 so far. */
  ghost predicate SettingUp(g: Gate, n: nat) {
    g.pending == Some(SetupConfirm) && g.setupFailures == n && g.limiter == Limiter(Zeros(n), None)
  }

  function WrongCodes(g: Gate, c: Limits, n: nat): Gate {
    if n == 0 then g else Step(WrongCodes(g, c, n - 1), c, WRONG)
  }

  /** Wrong codes at setup are tolerated up to, and not including, the fifth, which ends the setup, lockout or not. */
  lemma {:induction false} SetupEndsAtTheFifth(g: Gate, c: Limits, n: nat)
    requires SettingUp(g, 0) && c.windowMs >= 0 && c.threshold > n && n <= TOTP_SETUP_MAX_FAILURES
    ensures n < TOTP_SETUP_MAX_FAILURES ==> SettingUp(WrongCodes(g, c, n), n)
    ensures n == TOTP_SETUP_MAX_FAILURES ==>
              WrongCodes(g, c, n).pending.None? && WrongCodes(g, c, n).setupFailures == 0
  {
    hide Step, SettingUp;
    if n > 0 {
      SetupEndsAtTheFifth(g, c, n - 1);
      OneWrongCode(WrongCodes(g, c, n - 1), c, n - 1);
    }
  }

  lemma {:induction false} OneWrongCode(g: Gate, c: Limits, n: nat)
    requires SettingUp(g, n) && c.windowMs >= 0 && c.threshold > n + 1
    ensures var h := Step(g, c, WRONG);
            if n + 1 < TOTP_SETUP_MAX_FAILURES then SettingUp(h, n + 1) else h.pending.None? && h.setupFailures == 0
  {
    RecentZeros(n, c.windowMs);
    hide Recent;
    assert Zeros(n) + [0] == Zeros(n + 1);
  }

  lemma {:induction false} GuessesRun(c: Limits, es: seq<AccessGate.Event>, k: nat)
    requires Trying(Run(c, es), 0) && k <= Most(c) && c.windowMs >= 0
    ensures var g := Run(c, es + Guesses(k));
            Served(g) && (k < Most(c) ==> Trying(g, k)) && Rejects(Run(c, es).log, g.log, k)
  {
    hide Step, Run, Most;
    if k == 0 {
      assert es + Guesses(0) == es;
    } else {
      GuessesRun(c, es, k - 1);
      hide Trying, Served;
      var front := es + Guesses(k - 1);
      assert es + Guesses(k) == front + [ASK] + [WRONG];
      RunSnoc(c, front, ASK);
      RunSnoc(c, front + [ASK], WRONG);
      OneGuess(Run(c, front), c, k - 1);
    }
  }

  lemma {:induction false} RejectsCount(before: seq<Entry>, after: seq<Entry>, n: nat)
    requires Rejects(before, after, n) && NoSuccessIn(before, 0, 1)
    ensures RejectedIn(after, 0, 1) == RejectedIn(before, 0, 1) + n && NoSuccessIn(after, 0, 1)
  {
    if n == 0 {
      assert after == before;
    } else {
      var front := after[..|after| - 1];
      RejectsCount(before, front, n - 1);
      assert after == front + [Rejected(0)];
      RejectedAppend(front, Rejected(0), 0, 1);
    }
  }

  lemma {:induction false} EnrolRuns(c: Limits)
    ensures Trying(Run(c, ENROL), 0) && Run(c, ENROL).log == [Accepted(-1, 1, StepOf(-1), StepOf(-1))]
  {
    hide StepOf;
    assert ENROL[..0] == [] && ENROL[..1] == ENROL[..0] + [ENROL[0]] && ENROL[..2] == ENROL[..1] + [ENROL[1]];
    assert ENROL == ENROL[..2] + [ENROL[2]];
    RunSnoc(c, ENROL[..0], ENROL[0]);
    RunSnoc(c, ENROL[..1], ENROL[1]);
    RunSnoc(c, ENROL[..2], ENROL[2]);
    assert Zeros(0) == [];
  }

  lemma {:induction false} RestartTries(g: Gate, c: Limits)
    requires Served(g)
    ensures Trying(Step(g, c, REBOOT), 0) && Step(g, c, REBOOT).log == g.log
  {
    assert Zeros(0) == [];
  }

  lemma {:induction false} SiegeStep(c: Limits, es: seq<AccessGate.Event>)
    requires Trying(Run(c, es), 0) && NoSuccessIn(Run(c, es).log, 0, 1) && c.windowMs >= 0
    ensures var g := Run(c, es + Guesses(Most(c)));
            && Served(g) && NoSuccessIn(g.log, 0, 1)
            && RejectedIn(g.log, 0, 1) == RejectedIn(Run(c, es).log, 0, 1) + Most(c)
  {
    hide Step, Run, Most, Trying, Served, RejectedIn, NoSuccessIn;
    GuessesRun(c, es, Most(c));
    RejectsCount(Run(c, es).log, Run(c, es + Guesses(Most(c))).log, Most(c));
  }

  lemma {:induction false} SiegeRuns(c: Limits, n: nat)
    requires c.windowMs >= 0
    ensures var g := Run(c, Siege(c, n));
            Served(g) && RejectedIn(g.log, 0, 1) == (1 + n) * Most(c) && NoSuccessIn(g.log, 0, 1)
  {
    hide Step, Run, Most, Trying, Served, Guesses;
    if n == 0 {
      EnrolRuns(c);
      EnrolmentIsEarlier(Run(c, ENROL).log);
      SiegeStep(c, ENROL);
    } else {
      SiegeRuns(c, n - 1);
      var front := Siege(c, n - 1);
      RunSnoc(c, front, REBOOT);
      RestartTries(Run(c, front), c);
      SiegeStep(c, front + [REBOOT]);
      assert (1 + n) * Most(c) == n * Most(c) + Most(c);
    }
  }

  lemma {:induction false} EnrolmentIsEarlier(log: seq<Entry>)
    requires log == [Accepted(-1, 1, StepOf(-1), StepOf(-1))]
    ensures RejectedIn(log, 0, 1) == 0 && NoSuccessIn(log, 0, 1)
  {
  }

  predicate AtZero(e: AccessGate.Event) {
    e == ASK || e == WRONG || e == REBOOT
  }

  lemma {:induction false} GuessesStamped(k: nat)
    ensures forall i :: 0 <= i < |Guesses(k)| ==> AtZero(Guesses(k)[i])
    ensures RestartsIn(Guesses(k), 0, 1) == 0
  {
    if k > 0 {
      GuessesStamped(k - 1);
      RestartsSnoc(Guesses(k - 1), ASK);
      RestartsSnoc(Guesses(k - 1) + [ASK], WRONG);
    }
  }

  lemma {:induction false} RestartsSnoc(a: seq<AccessGate.Event>, e: AccessGate.Event)
    ensures RestartsIn(a + [e], 0, 1) == RestartsIn(a, 0, 1) +
        if e.what.Restart? && InInterval(e.t2, 0, 1) then 1 else 0
  {
    assert (a + [e])[..|a|] == a;
  }

  lemma {:induction false} RestartsAppend(a: seq<AccessGate.Event>, b: seq<AccessGate.Event>)
    ensures RestartsIn(a + b, 0, 1) == RestartsIn(a, 0, 1) + RestartsIn(b, 0, 1)
  {
    if b == [] {
      assert a + b == a;
    } else {
      var n := |b| - 1;
      RestartsAppend(a, b[..n]);
      assert (a + b)[..|a + b| - 1] == a + b[..n];
    }
  }

  lemma {:induction false} SiegeRestarts(c: Limits, n: nat)
    ensures RestartsIn(Siege(c, n), 0, 1) == n
  {
    hide Guesses, Most;
    GuessesStamped(Most(c));
    if n == 0 {
      RestartsSnoc([], ENROL[0]);
      RestartsSnoc([] + [ENROL[0]], ENROL[1]);
      RestartsSnoc([] + [ENROL[0]] + [ENROL[1]], ENROL[2]);
      assert ENROL == [] + [ENROL[0]] + [ENROL[1]] + [ENROL[2]];
      RestartsAppend(ENROL, Guesses(Most(c)));
    } else {
      SiegeRestarts(c, n - 1);
      RestartsSnoc(Siege(c, n - 1), REBOOT);
      RestartsAppend(Siege(c, n - 1) + [REBOOT], Guesses(Most(c)));
    }
  }

  /** The enrolment at -1, then everything at 0. */
  lemma {:induction false} SiegeStamped(c: Limits, n: nat)
    ensures |Siege(c, n)| >= 3 && Siege(c, n)[..3] == ENROL
    ensures forall i :: 3 <= i < |Siege(c, n)| ==> AtZero(Siege(c, n)[i])
  {
    hide Guesses, Most, AtZero, RestartsIn;
    GuessesStamped(Most(c));
    RebootAtZero();
    if n > 0 {
      SiegeStamped(c, n - 1);
      assert Siege(c, n)[..3] == Siege(c, n - 1)[..3];
    } else {
      assert Siege(c, 0)[..3] == ENROL;
    }
  }

  lemma {:induction false} RebootAtZero()
    ensures AtZero(REBOOT)
  {
  }

  /** The bound is reached, with every number of restarts, by a run whose clock never goes back. */
  lemma {:induction false} BoundIsReached(c: Limits, n: nat)
    requires 1 <= c.windowMs && 1 <= c.lockoutMs
    ensures var es := Siege(c, n);
            && AccessGate.ClockForward(es) && NoSuccessIn(Run(c, es).log, 0, 1) && RestartsIn(es, 0, 1) == n
            && RejectedIn(Run(c, es).log, 0, 1) == (1 + n) * Most(c)
  {
    SiegeRuns(c, n);
    SiegeStamped(c, n);
    SiegeRestarts(c, n);
    hide Run, RejectedIn, RestartsIn;
    var es := Siege(c, n);
    hide Siege;
    forall i | 0 <= i < |es| ensures Timely(es[i]) && es[i].t0 == es[i].t2 == if i < 3 then -1 else 0 {
      if i < 3 {
        assert es[i] == es[..3][i];
      }
    }
  }
}
