/**
  The daily cap on rebalances (src/rebalancer.ts:67-72,280-285, src/stateStore.ts:168-180): every execution counts the
  day's rows before it starts and logs its own row at the end. The loop and the operator's commands are separate
  processes on one database, so executions may overlap.
 */
module DailyCap {
  import opened Prelude
  import opened Strategy
  import opened Rebalancer

  /** The log, and the start times of executions that passed the check and have not ended. */
  datatype State = State(log: seq<int>, flight: seq<int>)

  datatype Step = Check(now: int) | Record(k: nat) | Abort(k: nat)

  function Next(s: State, cap: int, e: Step): State {
    match e
    case Check(now) => if CountDay(s.log, DayOf(now)) < cap then s.(flight := s.flight + [now]) else s
    case Record(k) => if k < |s.flight| then State(s.log + [s.flight[k]], Without(s.flight, k)) else s
    case Abort(k) => if k < |s.flight| then s.(flight := Without(s.flight, k)) else s
  }

  function Run(s: State, cap: int, es: seq<Step>): State {
    if es == [] then s else Next(Run(s, cap, es[..|es| - 1]), cap, es[|es| - 1])
  }

  /** Never more than m executions at once. */
  ghost predicate Overlap(s: State, cap: int, es: seq<Step>, m: nat) {
    forall k :: 0 <= k <= |es| ==> |Run(s, cap, es[..k]).flight| <= m
  }

  const FRESH := State([], [])

  // ----- the bound

  lemma {:induction false} CountConcat(a: seq<int>, b: seq<int>, day: int)
    ensures CountDay(a + b, day) == CountDay(a, day) + CountDay(b, day)
  {
    if b == [] {
      assert a + b == a;
    } else {
      var n := |b| - 1;
      CountConcat(a, b[..n], day);
      assert (a + b)[..|a + b| - 1] == a + b[..n];
    }
  }

  lemma {:induction false} CountWithout(s: seq<int>, k: nat, day: int)
    requires k < |s|
    ensures CountDay(Without(s, k), day) == CountDay(s, day) - if DayOf(s[k]) == day then 1 else 0
  {
    CountConcat(s[..k], s[k + 1..], day);
    CountConcat(s[..k + 1], s[k + 1..], day);
    assert s == s[..k + 1] + s[k + 1..];
    CountAppend(s[..k], s[k], day);
    assert s[..k + 1] == s[..k] + [s[k]];
  }

  lemma {:induction false} CountWithin(s: seq<int>, day: int)
    ensures CountDay(s, day) <= |s|
  {
    if s != [] {
      CountWithin(s[..|s| - 1], day);
    }
  }

  /** Rows logged plus rows still to come. */
  function Claimed(s: State, day: int): nat {
    CountDay(s.log, day) + CountDay(s.flight, day)
  }

  lemma {:induction false} NextClaims(s: State, cap: int, e: Step, m: nat, day: int)
    requires Claimed(s, day) <= cap + m - 1 && |Next(s, cap, e).flight| <= m
    ensures Claimed(Next(s, cap, e), day) <= cap + m - 1
  {
    hide DayOf;
    if e.Check? {
      CountAppend(s.flight, e.now, day);
      CountWithin(s.flight + [e.now], day);
    } else if e.k < |s.flight| {
      CountWithout(s.flight, e.k, day);
      CountAppend(s.log, s.flight[e.k], day);
    }
  }

  lemma {:induction false} RunClaims(cap: int, es: seq<Step>, m: nat, day: int)
    requires Overlap(FRESH, cap, es, m) && cap >= 0 && m >= 1
    ensures Claimed(Run(FRESH, cap, es), day) <= cap + m - 1
  {
    hide Next;
    if es != [] {
      var n := |es| - 1;
      forall k | 0 <= k <= n ensures |Run(FRESH, cap, es[..n][..k]).flight| <= m {
        assert es[..n][..k] == es[..k];
      }
      RunClaims(cap, es[..n], m, day);
      assert es[..n + 1] == es;
      NextClaims(Run(FRESH, cap, es[..n]), cap, es[n], m, day);
    }
  }

  /** With at most m executions at once, no UTC day holds more than cap + m - 1 rows. */
  lemma {:induction false} RowsPerDay(cap: int, es: seq<Step>, m: nat, day: int)
    requires Overlap(FRESH, cap, es, m) && cap >= 0 && m >= 1
    ensures CountDay(Run(FRESH, cap, es).log, day) <= cap + m - 1
  {
    RunClaims(cap, es, m, day);
  }

  // ----- which is reached

  function Repeat(e: Step, n: nat): seq<Step> {
    if n == 0 then [] else Repeat(e, n - 1) + [e]
  }

  /** cap - 1 executions one after the other, then m that all check before any records. */
  function Worst(cap: nat, m: nat): seq<Step>
    requires cap >= 1
  {
    OneByOne(cap - 1) + Repeat(Check(0), m) + Repeat(Record(0), m)
  }

  function OneByOne(n: nat): seq<Step> {
    if n == 0 then [] else OneByOne(n - 1) + [Check(0)] + [Record(0)]
  }

  lemma {:induction false} RunSnoc(s: State, cap: int, es: seq<Step>, e: Step)
    ensures Run(s, cap, es + [e]) == Next(Run(s, cap, es), cap, e)
  {
  }

  lemma {:induction false} OverlapSnoc(s: State, cap: int, es: seq<Step>, e: Step, m: nat)
    requires Overlap(s, cap, es, m) && |Run(s, cap, es + [e]).flight| <= m
    ensures Overlap(s, cap, es + [e], m)
  {
    forall k | 0 <= k <= |es + [e]| ensures |Run(s, cap, (es + [e])[..k]).flight| <= m {
      if k <= |es| {
        assert (es + [e])[..k] == es[..k];
      } else {
        assert (es + [e])[..k] == es + [e];
      }
    }
  }

  function Zeros(n: nat): seq<int> {
    seq(n, _ => 0)
  }

  lemma {:induction false} CountZeros(n: nat)
    ensures CountDay(Zeros(n), 0) == n
  {
    if n > 0 {
      CountZeros(n - 1);
      assert Zeros(n)[..n - 1] == Zeros(n - 1);
    }
  }

  lemma {:induction false} DayOfStart()
    ensures DayOf(0) == 0
  {
  }

  /** From a log of k rows of day 0, one check and one record log one more. */
  lemma {:induction false} CheckPasses(cap: nat, k: nat)
    requires k < cap
    ensures Next(State(Zeros(k), []), cap, Check(0)) == State(Zeros(k), [0])
  {
    CountZeros(k);
    hide CountDay, DayOf;
    DayOfStart();
  }

  lemma {:induction false} RecordLogs(cap: nat, k: nat)
    ensures Next(State(Zeros(k), [0]), cap, Record(0)) == State(Zeros(k + 1), [])
  {
    hide CountDay, DayOf;
    assert Zeros(k) + [0] == Zeros(k + 1);
    assert Without([0], 0) == [];
  }

  lemma {:induction false} OneMoreLogs(cap: nat, es: seq<Step>, k: nat)
    requires k < cap && Run(FRESH, cap, es) == State(Zeros(k), [])
    ensures Run(FRESH, cap, es + [Check(0)]) == State(Zeros(k), [0])
    ensures Run(FRESH, cap, es + [Check(0)] + [Record(0)]) == State(Zeros(k + 1), [])
  {
    hide Run, Next, Zeros, CountDay;
    CheckPasses(cap, k);
    RecordLogs(cap, k);
    RunSnoc(FRESH, cap, es, Check(0));
    RunSnoc(FRESH, cap, es + [Check(0)], Record(0));
  }

  lemma {:induction false} NothingLogged(cap: nat)
    ensures Run(FRESH, cap, OneByOne(0)) == State(Zeros(0), [])
  {
    hide Next;
    assert Zeros(0) == [];
  }

  lemma {:induction false} OneByOneLogs(cap: nat, n: nat)
    requires n < cap
    ensures Run(FRESH, cap, OneByOne(n)) == State(Zeros(n), [])
    ensures n > 0 ==> Run(FRESH, cap, OneByOne(n - 1) + [Check(0)]) == State(Zeros(n - 1), [0])
  {
    hide Run, Zeros;
    if n > 0 {
      OneByOneLogs(cap, n - 1);
      OneMoreLogs(cap, OneByOne(n - 1), n - 1);
    } else {
      NothingLogged(cap);
    }
  }

  lemma {:induction false} OneByOneOverlaps(cap: nat, n: nat, m: nat)
    requires n < cap && m >= 1
    ensures Overlap(FRESH, cap, OneByOne(n), m)
  {
    if n > 0 {
      OneByOneOverlaps(cap, n - 1, m);
      OneByOneLogs(cap, n);
      hide Run, Overlap, Zeros;
      OverlapSnoc(FRESH, cap, OneByOne(n - 1), Check(0), m);
      OverlapSnoc(FRESH, cap, OneByOne(n - 1) + [Check(0)], Record(0), m);
    }
  }

  lemma {:induction false} ChecksRun(cap: nat, es: seq<Step>, j: nat, m: nat)
    requires cap >= 1 && j <= m && Run(FRESH, cap, es) == State(Zeros(cap - 1), []) && Overlap(FRESH, cap, es, m)
    ensures Run(FRESH, cap, es + Repeat(Check(0), j)) == State(Zeros(cap - 1), Zeros(j))
    ensures Overlap(FRESH, cap, es + Repeat(Check(0), j), m)
  {
    hide Run, Overlap, DayOf, CountDay;
    DayOfStart();
    if j == 0 {
      assert es + [] == es;
    } else {
      ChecksRun(cap, es, j - 1, m);
      var front := es + Repeat(Check(0), j - 1);
      assert es + Repeat(Check(0), j) == front + [Check(0)];
      CountZeros(cap - 1);
      RunSnoc(FRESH, cap, front, Check(0));
      assert Zeros(j - 1) + [0] == Zeros(j);
      OverlapSnoc(FRESH, cap, front, Check(0), m);
    }
  }

  lemma {:induction false} RecordsRun(cap: nat, es: seq<Step>, j: nat, m: nat)
    requires cap >= 1 && j <= m && Run(FRESH, cap, es) == State(Zeros(cap - 1), Zeros(m)) && Overlap(FRESH, cap, es, m)
    ensures Run(FRESH, cap, es + Repeat(Record(0), j)) == State(Zeros(cap - 1 + j), Zeros(m - j))
    ensures Overlap(FRESH, cap, es + Repeat(Record(0), j), m)
  {
    hide Run, Overlap, CountDay;
    if j == 0 {
      assert es + [] == es;
    } else {
      RecordsRun(cap, es, j - 1, m);
      var front := es + Repeat(Record(0), j - 1);
      assert es + Repeat(Record(0), j) == front + [Record(0)];
      RunSnoc(FRESH, cap, front, Record(0));
      assert Zeros(cap - 1 + j - 1) + [0] == Zeros(cap - 1 + j);
      assert Without(Zeros(m - j + 1), 0) == Zeros(m - j);
      OverlapSnoc(FRESH, cap, front, Record(0), m);
    }
  }

  lemma {:induction false} WorstIsReached(cap: nat, m: nat)
    requires cap >= 1 && m >= 1
    ensures Overlap(FRESH, cap, Worst(cap, m), m)
    ensures CountDay(Run(FRESH, cap, Worst(cap, m)).log, 0) == cap + m - 1
  {
    hide Run, Overlap, Next, Repeat, OneByOne, CountDay, Zeros;
    OneByOneLogs(cap, cap - 1);
    OneByOneOverlaps(cap, cap - 1, m);
    ChecksRun(cap, OneByOne(cap - 1), m, m);
    RecordsRun(cap, OneByOne(cap - 1) + Repeat(Check(0), m), m, m);
    CountZeros(cap - 1 + m);
  }

  /** No day exceeds the cap, in any run with at most m executions at once, if and only if executions do not overlap. */
  lemma {:induction false} CapHoldsIff(cap: nat, m: nat)
    requires cap >= 1 && m >= 1
    ensures (forall es, day :: Overlap(FRESH, cap, es, m) ==> CountDay(Run(FRESH, cap, es).log, day) <= cap) <==> m == 1
  {
    if m == 1 {
      forall es, day | Overlap(FRESH, cap, es, m) ensures CountDay(Run(FRESH, cap, es).log, day) <= cap {
        RowsPerDay(cap, es, m, day);
      }
    } else {
      WorstIsReached(cap, m);
    }
  }

  lemma {:induction false} LoggedBy(b: Bot, c: Config, at: Option<Position>, env: Env)
    ensures After(b, c, at, env).0.log ==
        if StageOf(b.log, c, at, env).Done? && !c.dryRun then b.log + [env.now] else b.log
    ensures StageOf(b.log, c, at, env).Done? ==> CountDay(b.log, DayOf(env.now)) < c.params.maxRebalancesPerDay
  {
  }

  /** An execution logs what one check followed by one record or abort logs, whoever called it and however it ends. */
  lemma {:induction false} ExecutionIsCheckThenEnd(b: Bot, c: Config, at: Option<Position>, env: Env)
    ensures var end := if StageOf(b.log, c, at, env).Done? && !c.dryRun then Record(0) else Abort(0);
            Run(State(b.log, []), c.params.maxRebalancesPerDay, [Check(env.now), end])
              == State(After(b, c, at, env).0.log, [])
  {
    LoggedBy(b, c, at, env);
    hide CountDay, DayOf, Tripped, After, StageOf, Run;
    var cap := c.params.maxRebalancesPerDay;
    var end := if StageOf(b.log, c, at, env).Done? && !c.dryRun then Record(0) else Abort(0);
    CheckThenEnd(b.log, cap, env.now, end);
  }

  lemma {:induction false} CheckThenEnd(log: seq<int>, cap: int, now: int, end: Step)
    requires end == Abort(0) || (end == Record(0) && CountDay(log, DayOf(now)) < cap)
    ensures Run(State(log, []), cap, [Check(now), end]) == State(if end.Record? then log + [now] else log, [])
  {
    hide CountDay, DayOf;
    var s := State(log, []);
    assert [Check(now), end] == [Check(now)] + [end];
    assert [Check(now)] == [] + [Check(now)];
    RunSnoc(s, cap, [], Check(now));
    RunSnoc(s, cap, [Check(now)], end);
    assert Without([now], 0) == [];
  }
}
