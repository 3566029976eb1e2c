/**
  The minimum interval between rebalances (src/strategy.ts:40-46, src/stateStore.ts:177-180): `decide` compares the
  clock with the newest logged row before the execution starts, and the execution logs its own row at its end. The
  tick loop and the operator's commands are separate processes on one database, so executions may overlap.
 */
module RebalanceSpacing {
  import opened Prelude
  import opened Strategy
  import opened Rebalancer
  import opened PositionLifecycle

  /** An execution's start time, and whether `decide` chose it. */
  datatype Row = Row(ts: int, decided: bool)

  datatype State = State(log: seq<Row>, flight: seq<Row>)

  /** Executions start, chosen by `decide` on the log of that moment or not, and end with their row or without. */
  datatype Move = Decided(tickStart: int, now: int) | Commanded(now: int) | Record(k: nat) | Abort(k: nat)

  ghost predicate ClearOf(log: seq<Row>, gap: int, at: int) {
    forall i :: 0 <= i < |log| ==> log[i].ts + gap <= at
  }

  ghost function Next(s: State, gap: int, m: Move): State {
    match m
    case Decided(tickStart, now) => if ClearOf(s.log, gap, tickStart)
        && tickStart <= now then s.(flight := s.flight + [Row(now, true)]) else s
    case Commanded(now) => s.(flight := s.flight + [Row(now, false)])
    case Record(k) => if k < |s.flight| then State(s.log + [s.flight[k]], Without(s.flight, k)) else s
    case Abort(k) => if k < |s.flight| then s.(flight := Without(s.flight, k)) else s
  }

  ghost function Run(gap: int, ms: seq<Move>): State {
    if ms == [] then State([], []) else Next(Run(gap, ms[..|ms| - 1]), gap, ms[|ms| - 1])
  }

  /** Never more than n executions at once. */
  ghost predicate Overlap(gap: int, ms: seq<Move>, n: nat) {
    forall k :: 0 <= k <= |ms| ==> |Run(gap, ms[..k]).flight| <= n
  }

  /** The clock never goes back from one start to the next. */
  ghost predicate ClockForward(ms: seq<Move>) {
    forall i, j :: 0 <= i < j < |ms| && StartOf(ms[i]).Some? && StartOf(ms[j]).Some? ==>
      StartOf(ms[i]).value <= StartOf(ms[j]).value
  }

  function StartOf(m: Move): Option<int> {
    match m
    case Decided(_, now) => Some(now)
    case Commanded(now) => Some(now)
    case _ => None
  }

  /** Every rebalance chosen by `decide` is logged at least the interval after every one logged before it. */
  ghost predicate Spaced(log: seq<Row>, gap: int) {
    forall i, j :: 0 <= i < j < |log| && log[j].decided ==> log[i].ts + gap <= log[j].ts
  }

  // ----- alone

  ghost predicate Inv(s: State, gap: int) {
    Spaced(s.log, gap) && forall k :: 0 <= k < |s.flight| && s.flight[k].decided ==> ClearOf(s.log, gap, s.flight[k].ts)
  }

  lemma {:induction false} AloneKeepsSpacing(s: State, gap: int, m: Move)
    requires Inv(s, gap) && |s.flight| <= 1 && |Next(s, gap, m).flight| <= 1
    ensures Inv(Next(s, gap, m), gap)
  {
    if m.Record? && m.k < |s.flight| {
      var row := s.flight[m.k];
      assert Without(s.flight, m.k) == [];
      assert row.decided ==> ClearOf(s.log, gap, row.ts);
    }
  }

  lemma {:induction false} RunAlone(gap: int, ms: seq<Move>)
    requires Overlap(gap, ms, 1)
    ensures Inv(Run(gap, ms), gap)
  {
    hide Next, Inv;
    if ms == [] {
      EmptyOk(gap);
    } else {
      var n := |ms| - 1;
      forall k | 0 <= k <= n ensures |Run(gap, ms[..n][..k]).flight| <= 1 {
        assert ms[..n][..k] == ms[..k];
      }
      RunAlone(gap, ms[..n]);
      assert ms[..n + 1] == ms;
      AloneKeepsSpacing(Run(gap, ms[..n]), gap, ms[n]);
    }
  }

  lemma {:induction false} EmptyOk(gap: int)
    ensures Inv(State([], []), gap)
  {
  }

  // ----- overlapped

  /** A command starts while a decided rebalance is under way, and logs first. */
  const CROSSING := [Decided(0, 0), Commanded(0), Record(1), Record(0)]

  lemma {:induction false} RunSnoc(gap: int, ms: seq<Move>, m: Move)
    ensures Run(gap, ms + [m]) == Next(Run(gap, ms), gap, m)
  {
    assert (ms + [m])[..|ms|] == ms;
  }

  lemma {:induction false} CrossingRuns(gap: int)
    ensures Run(gap, CROSSING[..0]) == State([], [])
    ensures Run(gap, CROSSING[..1]) == State([], [Row(0, true)])
    ensures Run(gap, CROSSING[..2]) == State([], [Row(0, true), Row(0, false)])
    ensures Run(gap, CROSSING[..3]) == State([Row(0, false)], [Row(0, true)])
    ensures Run(gap, CROSSING) == State([Row(0, false), Row(0, true)], [])
  {
    assert CROSSING[..0] == [];
    assert CROSSING[..1] == CROSSING[..0] + [CROSSING[0]] && CROSSING[..2] == CROSSING[..1] + [CROSSING[1]];
    assert CROSSING[..3] == CROSSING[..2] + [CROSSING[2]] && CROSSING == CROSSING[..3] + [CROSSING[3]];
    RunSnoc(gap, CROSSING[..0], CROSSING[0]);
    RunSnoc(gap, CROSSING[..1], CROSSING[1]);
    RunSnoc(gap, CROSSING[..2], CROSSING[2]);
    RunSnoc(gap, CROSSING[..3], CROSSING[3]);
    assert Without([Row(0, true), Row(0, false)], 1) == [Row(0, true)] && Without([Row(0, true)], 0) == [];
  }

  lemma {:induction false} CrossingIsClose(gap: int, n: nat)
    requires gap > 0 && n >= 2
    ensures Overlap(gap, CROSSING, n) && ClockForward(CROSSING) && !Spaced(Run(gap, CROSSING).log, gap)
  {
    CrossingRuns(gap);
    hide Run;
    assert CROSSING[..4] == CROSSING;
    forall k | 0 <= k <= |CROSSING| ensures |Run(gap, CROSSING[..k]).flight| <= n {
      assert k == 0 || k == 1 || k == 2 || k == 3 || k == 4;
    }
    var log := Run(gap, CROSSING).log;
    assert log[0].ts + gap > log[1].ts && log[1].decided;
  }

  /**
    With a positive interval: in every run with at most n executions at once, each rebalance chosen by `decide` is
    logged at least the interval after all logged before it, if and only if executions do not overlap.
   */
  lemma {:induction false} SpacedIff(gap: int, n: nat)
    requires gap > 0 && n >= 1
    ensures (forall ms :: ClockForward(ms) && Overlap(gap, ms, n) ==> Spaced(Run(gap, ms).log, gap)) <==> n == 1
  {
    hide Run;
    if n == 1 {
      forall ms | ClockForward(ms) && Overlap(gap, ms, n) ensures Spaced(Run(gap, ms).log, gap) {
        RunAlone(gap, ms);
      }
    } else {
      CrossingIsClose(gap, n);
    }
  }

  // ----- a tick that rebalances is such a decided start

  /** The rows of the bot's log, whoever started them. */
  function Times(log: seq<Row>): seq<int> {
    seq(|log|, i requires 0 <= i < |log| => log[i].ts)
  }

  /**
    A tick that executes on a stored position starts only clear of every logged row, and logs at most its own start:
    it is a decided start that then records or aborts.
   */
  lemma {:induction false} TickIsDecidedStart(log: seq<Row>, b: Bot, c: Config, t: TickEnv)
    requires b.log == Times(log) && b.stored.Some? && t.now <= t.env.now && ActionOf(b, c, t).Execute?
    ensures var gap := c.params.minRebalanceIntervalMin * MINUTE;
            var s := Next(State(log, []), gap, Decided(t.now, t.env.now));
            && s.flight == [Row(t.env.now, true)]
            && Ticked(b, c, t).0.log ==
                 Times(Next(s, gap, if Ticked(b, c, t).1.Ok? && !c.dryRun then Record(0) else Abort(0)).log)
  {
    var gap := c.params.minRebalanceIntervalMin * MINUTE;
    DecidedClear(b, c, t);
    forall i | 0 <= i < |log| ensures log[i].ts + gap <= t.now {
      assert b.log[i] in b.log;
    }
    LoggedOnlyIfOk(b, c, t);
    assert Times(log + [Row(t.env.now, true)]) == Times(log) + [t.env.now];
  }

  lemma {:induction false} DecidedClear(b: Bot, c: Config, t: TickEnv)
    requires b.stored.Some? && ActionOf(b, c, t).Execute?
    ensures forall x :: x in b.log ==> x + c.params.minRebalanceIntervalMin * MINUTE <= t.now
  {
    RebalancesIff(StateSeen(b, t, t.position.value), c.params);
    hide Decide;
  }

  lemma {:induction false} LoggedOnlyIfOk(b: Bot, c: Config, t: TickEnv)
    requires ActionOf(b, c, t).Execute?
    ensures Ticked(b, c, t).0.log == if Ticked(b, c, t).1.Ok? && !c.dryRun then b.log + [t.env.now] else b.log
  {
    hide ActionOf, StageOf;
  }
}
