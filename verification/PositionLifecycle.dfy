/**
  The tick loop's guards (src/main.ts:563-635) around `decide` and `executeRebalance`, over every run of ticks: how many
  positions are live on chain, and when clearing the degraded flag is safe.
  Assumes that the chain accepts a close only of a live position.
 */
module PositionLifecycle {
  import opened Prelude
  import opened ShareMath
  import opened Strategy
  import opened Rebalancer

  /** One tick: the oracle, the kill switch, what getPosition answers for the stored mint, and the execution, if any. */
  datatype TickEnv = TickEnv(now: int, price: Option<Sample>, history: seq<Sample>, killSwitchTripped: bool,
                             position: Answer<Option<(PriceRange, real)>>, env: Env)

  /** What a tick asks executeRebalance to do, if anything. */
  datatype Action = NoAction | Execute(at: Option<Position>)

  function StateSeen(b: Bot, t: TickEnv, position: Option<(PriceRange, real)>): BotState {
    BotState(t.price, t.history, if position.Some? then Some(position.value.0) else None, NewestOf(b.log),
             CountDay(b.log, DayOf(t.now)), t.killSwitchTripped, b.degraded, t.now)
  }

  function ActionOf(b: Bot, c: Config, t: TickEnv): Action {
    if b.stored.Some? && t.position.Threw? then NoAction
    else
      var position := if b.stored.Some? then t.position.value else None;
      if b.stored.None? && t.price.Some? && !t.killSwitchTripped && !b.degraded then Execute(None)
      else if Decide(StateSeen(b, t, position), c.params).Rebalance? && position.Some? && b.stored.Some? then
        Execute(Some(Position(b.stored.value, position.value.0, position.value.1)))
      else NoAction
  }

  /** decide never asks for a rebalance without a position, so no decision is lost above. */
  lemma {:induction false} DecisionsAreActedOn(b: Bot, c: Config, t: TickEnv, position: Option<(PriceRange, real)>)
    requires Decide(StateSeen(b, t, position), c.params).Rebalance?
    ensures position.Some? && t.price.Some? && !b.degraded && !t.killSwitchTripped
  {
  }

  /**
    The kill switch and the degraded flag stop both the initial open and every rebalance, an unreadable position stops
    the tick, and without a trusted price nothing is opened or moved.
   */
  lemma {:induction false} GuardsStopTheTick(b: Bot, c: Config, t: TickEnv)
    requires t.killSwitchTripped || b.degraded || t.price.None? || (b.stored.Some? && t.position.Threw?)
    ensures ActionOf(b, c, t) == NoAction
  {
    hide Since, AllOut, CountDay, OutOfRange;
  }

  /** Otherwise a bot without a stored position opens one, and a position is only ever moved as the stored mint. */
  lemma {:induction false} ActsOnTheStoredPosition(b: Bot, c: Config, t: TickEnv)
    ensures b.stored.None? && t.price.Some? && !t.killSwitchTripped && !b.degraded ==>
              ActionOf(b, c, t) == Execute(None)
    ensures var a := ActionOf(b, c, t);
            a.Execute? ==> (if a.at.Some? then Some(a.at.value.mint) else None) == b.stored
  {
    hide Decide;
  }

  /** What the samples, the log and the flags must say for a position over this range to be moved. */
  ghost predicate MoveIsDue(b: Bot, c: Config, t: TickEnv, range: PriceRange) {
    && !t.killSwitchTripped && !b.degraded
    && t.price.Some? && t.now <= t.price.value.ts + c.params.oracleStaleMinutes * MINUTE
    && !Inside(range, t.price.value.bertUsd)
    && c.params.sustainedMinutes <= |Since(t.history, t.now - c.params.sustainedMinutes * MINUTE)|
    && (forall x :: x in t.history && t.now - c.params.sustainedMinutes * MINUTE <= x.ts ==>
          !Inside(range, x.bertUsd))
    && (forall logged :: logged in b.log ==> logged + c.params.minRebalanceIntervalMin * MINUTE <= t.now)
    && CountDay(b.log, DayOf(t.now)) < c.params.maxRebalancesPerDay
  }

  /**
    A readable stored position is moved exactly when a move is due: the price and the recent samples lie outside the
    range just read, every logged rebalance is the minimum interval old, and the day's rows are below the cap. It is
    handed on with the range and value just read.
   */
  lemma {:induction false} MovesIff(b: Bot, c: Config, t: TickEnv)
    requires b.stored.Some? && t.position.Returned? && t.position.value.Some?
    ensures var (range, value) := t.position.value.value;
            ActionOf(b, c, t) ==
              if MoveIsDue(b, c, t, range) then Execute(Some(Position(b.stored.value, range, value))) else NoAction
  {
    RebalancesIff(StateSeen(b, t, t.position.value), c.params);
    hide Decide, Since, Inside, CountDay;
    var newest := NewestOf(b.log);
    if newest.Some? && newest.value + c.params.minRebalanceIntervalMin * MINUTE <= t.now {
      assert forall logged :: logged in b.log ==> logged <= newest.value;
    }
  }

  function Ticked(b: Bot, c: Config, t: TickEnv): (Bot, Outcome) {
    match ActionOf(b, c, t)
    case NoAction => (b, Skipped)
    case Execute(at) => After(b, c, at, t.env)
  }

  /** A close lands only on a live position. */
  ghost predicate ChainAllows(b: Bot, c: Config, t: TickEnv) {
    var a := ActionOf(b, c, t);
    a.Execute? && a.at.Some? && !c.dryRun && t.env.closes ==> a.at.value.mint in b.live
  }

  ghost function TickRun(b: Bot, c: Config, ts: seq<TickEnv>): Bot {
    if ts == [] then b else Ticked(TickRun(b, c, ts[..|ts| - 1]), c, ts[|ts| - 1]).0
  }

  ghost predicate ChainAllowsRun(b: Bot, c: Config, ts: seq<TickEnv>) {
    forall k :: 0 <= k < |ts| ==> ChainAllows(TickRun(b, c, ts[..k]), c, ts[k])
  }

  // ----- at most one live position

  /** Nothing is live that the bot could overlook when it opens an initial position. */
  predicate NoneOverlooked(b: Bot) {
    b.stored.None? && !b.degraded ==> b.live == {}
  }

  ghost predicate Inv(b: Bot) {
    |b.live| <= 1 && NoneOverlooked(b)
  }

  lemma {:induction false} AtMostOne(live: set<Mint>, m: Mint)
    requires |live| <= 1 && m in live
    ensures live == {m} && live - {m} == {}
  {
    if x :| x in live && x != m {
      assert {m, x} <= live;
      SubsetSize({m, x}, live);
    }
    assert live == {m};
  }

  lemma {:induction false} SubsetSize(a: set<Mint>, b: set<Mint>)
    requires a <= b
    ensures |a| <= |b|
  {
    if a != {} {
      var x :| x in a;
      SubsetSize(a - {x}, b - {x});
    }
  }

  /** Before an execution opens, nothing is left on chain. */
  lemma {:induction false} ClosedFirst(b: Bot, c: Config, t: TickEnv)
    requires Inv(b) && ChainAllows(b, c, t) && !c.dryRun
    ensures var a := ActionOf(b, c, t);
            a.Execute? && (a.at.Some? ==> t.env.closes) ==> AfterClose(b.live, c, a.at) == {}
  {
    var a := ActionOf(b, c, t);
    if a.Execute? && a.at.Some? && t.env.closes {
      AtMostOne(b.live, a.at.value.mint);
    }
  }

  predicate BeforeOpen(stage: Stage) {
    !stage.PersistFails? && !stage.Done?
  }

  /** An execution that ends before the open leaves at most what was live, and degrades if it closed anything. */
  lemma {:induction false} StopsBeforeOpen(b: Bot, c: Config, at: Option<Position>, env: Env)
    requires Inv(b) && BeforeOpen(StageOf(b.log, c, at, env))
    ensures Inv(After(b, c, at, env).0)
  {
    hide StageOf;
    SubsetSize(AfterClose(b.live, c, at), b.live);
  }

  /** One that opened has at most the new position, and has stored it or is degraded. */
  lemma {:induction false} EndsAfterOpen(b: Bot, c: Config, at: Option<Position>, env: Env)
    requires !c.dryRun && !BeforeOpen(StageOf(b.log, c, at, env)) && AfterClose(b.live, c, at) == {}
    requires env.opens.Returned?
    ensures Inv(After(b, c, at, env).0)
  {
    hide StageOf;
    var mint := env.opens.value;
    assert AfterClose(b.live, c, at) + {mint} == {mint} && AfterClose(b.live, c, at) + {mint} - {mint} == {};
  }

  lemma {:induction false} OpensOnlyAfterClosing(log: seq<int>, c: Config, at: Option<Position>, env: Env)
    requires !BeforeOpen(StageOf(log, c, at, env))
    ensures env.opens.Returned? && (at.Some? ==> env.closes) && (c.dryRun ==> StageOf(log, c, at, env).Done?)
  {
    hide Tripped, CountDay;
  }

  lemma {:induction false} TickKeepsInv(b: Bot, c: Config, t: TickEnv)
    requires Inv(b) && ChainAllows(b, c, t)
    ensures Inv(Ticked(b, c, t).0)
  {
    hide ActionOf, After, StageOf, Inv, AfterClose;
    var a := ActionOf(b, c, t);
    if a.Execute? {
      if BeforeOpen(StageOf(b.log, c, a.at, t.env)) {
        StopsBeforeOpen(b, c, a.at, t.env);
      } else {
        OpensOnlyAfterClosing(b.log, c, a.at, t.env);
        if c.dryRun {
          DryRunLeavesAll(b, c, a.at, t.env);
        } else {
          ClosedFirst(b, c, t);
          EndsAfterOpen(b, c, a.at, t.env);
        }
      }
    }
  }

  lemma {:induction false} DryRunLeavesAll(b: Bot, c: Config, at: Option<Position>, env: Env)
    requires c.dryRun && StageOf(b.log, c, at, env).Done?
    ensures After(b, c, at, env).0 == b
  {
    hide StageOf;
  }

  lemma {:induction false} RunKeepsInv(b: Bot, c: Config, ts: seq<TickEnv>)
    requires Inv(b) && ChainAllowsRun(b, c, ts)
    ensures Inv(TickRun(b, c, ts))
  {
    hide Inv, Ticked, ChainAllows;
    if ts != [] {
      var n := |ts| - 1;
      forall k | 0 <= k < n ensures ChainAllows(TickRun(b, c, ts[..n][..k]), c, ts[..n][k]) {
        assert ts[..n][..k] == ts[..k];
        assert ChainAllows(TickRun(b, c, ts[..k]), c, ts[k]);
      }
      RunKeepsInv(b, c, ts[..n]);
      assert ChainAllows(TickRun(b, c, ts[..n]), c, ts[n]);
      TickKeepsInv(TickRun(b, c, ts[..n]), c, ts[n]);
    }
  }

  /**
    From a fresh start, over every run of ticks in which any build, submit or position write may throw, at most one
    position is live; an OK outside a dry run means the stored mint is exactly what is live.
   */
  lemma {:induction false} OneLivePosition(c: Config, log: seq<int>, ts: seq<TickEnv>, t: TickEnv)
    requires var b := TickRun(Bot({}, None, log, false), c, ts);
             ChainAllowsRun(Bot({}, None, log, false), c, ts) && ChainAllows(b, c, t)
    ensures var b := TickRun(Bot({}, None, log, false), c, ts);
            var (r, outcome) := Ticked(b, c, t);
            && |b.live| <= 1
            && (outcome.Ok? && !c.dryRun ==> r.live == {outcome.newMint} && r.stored == Some(outcome.newMint))
  {
    RunKeepsInv(Bot({}, None, log, false), c, ts);
    if !c.dryRun {
      OkMeansStored(TickRun(Bot({}, None, log, false), c, ts), c, t);
    }
  }

  lemma {:induction false} OkMeansStored(b: Bot, c: Config, t: TickEnv)
    requires Inv(b) && ChainAllows(b, c, t) && !c.dryRun
    ensures var (r, outcome) := Ticked(b, c, t);
            outcome.Ok? ==> r.live == {outcome.newMint} && r.stored == Some(outcome.newMint) && !r.degraded
  {
    hide Tripped, CountDay;
    ClosedFirst(b, c, t);
    if ActionOf(b, c, t).Execute? && ActionOf(b, c, t).at.Some? {
      DecisionsAreActedOn(b, c, t, t.position.value);
      hide Decide;
    }
  }

  /**
    An execution leaves a live position that is not the stored one exactly when its mint could not be stored nor
    rolled back.
   */
  lemma {:induction false} OrphanIff(b: Bot, c: Config, t: TickEnv)
    requires Inv(b) && b.live <= (if b.stored.Some? then {b.stored.value} else {}) && ChainAllows(b, c, t) && !c.dryRun
    requires t.env.opens.Returned? && Some(t.env.opens.value) != b.stored
    ensures var r := Ticked(b, c, t).0;
            var a := ActionOf(b, c, t);
            !(r.live <= (if r.stored.Some? then {r.stored.value} else {})) <==>
              a.Execute? && StageOf(b.log, c, a.at, t.env).PersistFails? && t.env.positionFaults && !t.env.rollsBack
  {
    hide Decide, Tripped, CountDay;
    ClosedFirst(b, c, t);
  }

  // ----- clearing the degraded flag

  function Cleared(b: Bot): Bot {
    b.(degraded := false)
  }

  ghost predicate StaysSafe(b: Bot, c: Config) {
    forall ts :: ChainAllowsRun(b, c, ts) ==> |TickRun(b, c, ts).live| <= 1
  }

  /** A quiet tick on a day without rebalances, in which everything succeeds. */
  function HealthyTick(day: int, mint: Mint): TickEnv {
    TickEnv(day * DAY, Some(Sample(1.0, day * DAY)), [], false, Threw,
            Env(day * DAY, Mid(1.0, 1.0), Threw, true, true, Returned(Balances(0, 0)), Returned(Balances(0, 0)),
                Returned(mint), false, false, true))
  }

  lemma {:induction false} QuietDay(log: seq<int>) returns (day: int)
    ensures forall i :: 0 <= i < |log| ==> DayOf(log[i]) < day
  {
    if log == [] {
      day := 0;
    } else {
      var n := |log| - 1;
      var d := QuietDay(log[..n]);
      day := Max(d, DayOf(log[n]) + 1);
      forall i | 0 <= i < |log| ensures DayOf(log[i]) < day {
        if i < n {
          assert log[..n][i] == log[i];
        }
      }
    }
  }

  lemma {:induction false} NoneThatDay(log: seq<int>, day: int)
    requires forall i :: 0 <= i < |log| ==> DayOf(log[i]) < day
    ensures CountDay(log, day) == 0
  {
    if log != [] {
      NoneThatDay(log[..|log| - 1], day);
    }
  }

  lemma {:induction false} SecondPositionOpens(b: Bot, c: Config, first: Mint, mint: Mint)
    requires b.stored.None? && !b.degraded && first in b.live && mint !in b.live && !c.dryRun
        && c.params.maxRebalancesPerDay >= 1
    ensures !StaysSafe(b, c)
  {
    var day := QuietDay(b.log);
    NoneThatDay(b.log, day);
    DayOfStart(day);
    var t := HealthyTick(day, mint);
    assert ActionOf(b, c, t) == Execute(None);
    hide CountDay, Decide, DayOf;
    var r := Ticked(b, c, t).0;
    assert r.live == b.live + {mint};
    SubsetSize({first, mint}, r.live);
    OneTick(b, c, t);
    assert |TickRun(b, c, [t]).live| >= 2;
  }

  lemma {:induction false} DayOfStart(day: int)
    ensures DayOf(day * DAY) == day
  {
  }

  lemma {:induction false} OneTick(b: Bot, c: Config, t: TickEnv)
    requires ChainAllows(b, c, t)
    ensures TickRun(b, c, [t]) == Ticked(b, c, t).0 && ChainAllowsRun(b, c, [t])
  {
  }

  /**
    After an operator clears the flag, later ticks never have two positions live, whatever fails, if and only if it is
    not the case that a position is live while none is stored.
   */
  lemma {:induction false} ClearingIsSafeIff(b: Bot, c: Config, mint: Mint)
    requires |b.live| <= 1 && mint !in b.live && !c.dryRun && c.params.maxRebalancesPerDay >= 1
    ensures StaysSafe(Cleared(b), c) <==> !(b.stored.None? && b.live != {})
  {
    var cleared := Cleared(b);
    if b.stored.None? && b.live != {} {
      var first :| first in b.live;
      SecondPositionOpens(cleared, c, first, mint);
    } else {
      forall ts | ChainAllowsRun(cleared, c, ts) ensures |TickRun(cleared, c, ts).live| <= 1 {
        RunKeepsInv(cleared, c, ts);
      }
    }
  }

  /** That case does arise: an initial open whose mint can neither be stored nor rolled back. */
  lemma {:induction false} OverlookedIsReachable(c: Config, mint: Mint)
    requires !c.dryRun && c.params.maxRebalancesPerDay >= 1
    ensures var h := HealthyTick(0, mint);
            var t := h.(env := h.env.(positionFaults := true, rollsBack := false));
            var r := Ticked(Bot({}, None, [], false), c, t).0;
            r.live == {mint} && r.stored.None? && r.degraded
  {
    hide Decide;
    DayOfStart(0);
    NoneThatDay([], 0);
  }

  // ----- the tick as the loop runs it

  /** One tick: note the price, look up the stored position, then open, decide or stay put. */
  method RunTick(bot: Rebalancer, history: PriceHistory, t: TickEnv) returns (outcome: Outcome,
      opening: Option<Opening>)
    requires history.Valid()
    modifies bot, history
    ensures history.Valid() && history.all == old(history.all) + if t.price.Some? then [t.price.value] else []
    ensures (bot.Now(), outcome) == Ticked(old(bot.Now()), bot.config, t.(history := history.samples))
  {
    if t.price.Some? {
      history.Push(t.price.value);
    }
    var storedPos := bot.stored;
    var position: Option<(PriceRange, real)> := None;
    if storedPos.Some? {
      if t.position.Threw? {
        return Skipped, None;
      }
      position := t.position.value;
    }
    var last := bot.LastRebalanceAt();
    var today := bot.GetRebalancesToday(t.now);
    var seen := BotState(t.price, history.samples, if position.Some? then Some(position.value.0) else None, last, today,
                         t.killSwitchTripped, bot.degraded, t.now);
    if storedPos.None? && t.price.Some? && !t.killSwitchTripped && !bot.degraded {
      outcome, opening := bot.ExecuteRebalance(None, t.env);
    } else {
      var decision := Decide(seen, bot.config.params);
      outcome, opening := Skipped, None;
      if decision.Rebalance? {
        outcome, opening := bot.ExecuteRebalance(Some(Position(storedPos.value, position.value.0, position.value.1)),
                                               t.env);
      }
    }
  }
}
