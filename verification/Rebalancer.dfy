/**
  Moving the position (executeRebalance, src/rebalancer.ts): drawdown check, daily cap, close, size, open, persist, roll
  back. Any build, submit or position write may throw; a submit that throws moved nothing.
 */
module Rebalancer {
  import opened Prelude
  import opened ShareMath
  import opened Strategy

  type Mint = string

  const DAY := 86_400_000

  datatype Config = Config(dryRun: bool, rangeWidthPct: real, maxDrawdownPct: real, maxPositionUsd: real,
                           minSolFloorLamports: nat, params: Params)

  datatype Position = Position(mint: Mint, range: PriceRange, totalValueUsd: real)

  /** What simulateClose says the position would yield. */
  datatype CloseQuote = CloseQuote(effectivePriceUsd: real, bertOut: nat, solOut: nat)

  datatype Outcome = Ok(newMint: Mint) | Skipped | Failed

  /** What a position is opened with on chain. */
  datatype Opening = Opening(range: PriceRange, solLamports: int, bertRaw: int)

  /** How the outside world answers one execution. */
  datatype Env = Env(
    now: int, mid: Mid,
    simulated: Answer<CloseQuote>, buildsClose: bool, closes: bool, balances: Answer<Balances>,
      finalBalances: Answer<Balances>,
    opens: Answer<Mint>, positionFaults: bool, logFaults: bool, rollsBack: bool)

  /** The bot's durable state, and the positions it has open on chain. */
  datatype Bot = Bot(live: set<Mint>, stored: Option<Mint>, log: seq<int>, degraded: bool)

  function DayOf(ts: int): int {
    ts / DAY
  }

  function CountDay(log: seq<int>, day: int): nat {
    if log == [] then 0 else CountDay(log[..|log| - 1], day) + (if DayOf(log[|log| - 1]) == day then 1 else 0)
  }

  lemma {:induction false} CountAppend(log: seq<int>, ts: int, day: int)
    ensures CountDay(log + [ts], day) == CountDay(log, day) + if DayOf(ts) == day then 1 else 0
  {
  }

  function NewestOf(log: seq<int>): (r: Option<int>)
    ensures r.None? <==> log == []
    ensures r.Some? ==> r.value in log && forall x :: x in log ==> x <= r.value
  {
    if log == [] then None
    else
      var front := NewestOf(log[..|log| - 1]);
      var last := log[|log| - 1];
      assert log == log[..|log| - 1] + [last];
      if front.Some? && front.value > last then front else Some(last)
  }

  // ----- sizing

  function AmountUsd(amount: int, unit: real, price: real): real
    requires unit > 0.0
  {
    amount as real / unit * price
  }

  function ValueUsd(t: Tokens, mid: Mid): real {
    AmountUsd(t.bertRaw, BERT_UNIT, mid.bertUsd) + AmountUsd(t.solLamports, SOL_UNIT, mid.solUsd)
  }

  lemma {:induction false} ValueIsWorth(t: Tokens, mid: Mid)
    ensures ValueUsd(t, mid) == Worth(t, mid)
  {
  }

  /** The wallet's BERT, and its SOL above the floor. */
  function Usable(b: Balances, floor: nat): Tokens {
    Tokens(SpendableSol(b, floor), b.bertRaw)
  }

  function CapUsd(total: real, maxPositionUsd: real): real {
    if total < maxPositionUsd then total else maxPositionUsd
  }

  function Scale(total: real, maxPositionUsd: real): real {
    if total > 0.0 then CapUsd(total, maxPositionUsd) / total else 0.0
  }

  function ScaledDown(amount: nat, scale: real): int {
    (amount as real * scale).Floor
  }

  /** The amounts a position is opened with: what is usable, scaled down to the cap and floored. */
  function OpenAmounts(b: Balances, mid: Mid, c: Config): (int, int) {
    var u := Usable(b, c.minSolFloorLamports);
    var scale := Scale(ValueUsd(u, mid), c.maxPositionUsd);
    (ScaledDown(u.solLamports, scale), ScaledDown(u.bertRaw, scale))
  }

  lemma {:induction false} ScaleInUnit(total: real, cap: real)
    requires 0.0 <= total && 0.0 <= cap
    ensures 0.0 <= Scale(total, cap) <= 1.0
    ensures Times(total, Scale(total, cap)) == CapUsd(total, cap)
  {
  }

  /** A product, named so that proofs can treat it as one value. */
  function Times(a: real, b: real): real {
    a * b
  }

  lemma {:induction false} TimesOrdered(a: real, b: real, k: real)
    requires 0.0 < k
    ensures a < b ==> Times(a, k) < Times(b, k)
    ensures a <= b ==> Times(a, k) <= Times(b, k)
  {
  }

  lemma {:induction false} TimesLaws(a: real, b: real, k: real)
    ensures Times(a + b, k) == Times(a, k) + Times(b, k)
    ensures Times(Times(a, b), k) == Times(Times(a, k), b)
    ensures Times(1.0, k) == k && Times(0.0, k) == 0.0
  {
  }

  lemma {:induction false} ScaledDownBounds(amount: nat, scale: real)
    requires 0.0 <= scale <= 1.0
    ensures 0 <= ScaledDown(amount, scale) <= amount
    ensures Times(amount as real, scale) - 1.0 < ScaledDown(amount, scale) as real <= Times(amount as real, scale)
  {
    Shrinks(amount as real, scale);
  }

  lemma {:induction false} Shrinks(a: real, s: real)
    requires 0.0 <= a && 0.0 <= s <= 1.0
    ensures 0.0 <= a * s <= a
  {
  }

  lemma {:induction false} AmountAtRate(amount: int, unit: real, price: real)
    requires 0.0 < unit && 0.0 < price
    ensures 0.0 < price / unit && AmountUsd(amount, unit, price) == Times(amount as real, price / unit)
  {
  }

  /** Scaling down and flooring one amount loses less than one raw unit's worth. */
  lemma {:induction false} ScaledDownWorth(amount: nat, scale: real, unit: real, price: real)
    requires 0.0 <= scale <= 1.0 && 0.0 < unit && 0.0 < price
    ensures 0 <= ScaledDown(amount, scale) <= amount
    ensures Times(AmountUsd(amount, unit, price), scale) - price / unit < AmountUsd(ScaledDown(amount, scale), unit,
        price)
    ensures AmountUsd(ScaledDown(amount, scale), unit, price) <= Times(AmountUsd(amount, unit, price), scale)
  {
    hide AmountUsd, ScaledDown, Times;
    var n, f, k := amount as real, ScaledDown(amount, scale) as real, price / unit;
    ScaledDownBounds(amount, scale);
    AmountAtRate(amount, unit, price);
    AmountAtRate(ScaledDown(amount, scale), unit, price);
    var exact := Times(n, scale);
    TimesLaws(n, k, scale);
    TimesLaws(exact - 1.0, 1.0, k);
    TimesOrdered(exact - 1.0, f, k);
    TimesOrdered(f, exact, k);
  }

  /**
    A position never takes more BERT than the wallet has, nor SOL below the floor; its value is at most the usable value
    and the configured maximum, and less than one raw unit of each token below the smaller of them.
   */
  lemma {:induction false} OpenWithinCap(b: Balances, mid: Mid, c: Config)
    requires mid.solUsd > 0.0 && mid.bertUsd > 0.0 && c.maxPositionUsd >= 0.0
    ensures var (sol, bert) := OpenAmounts(b, mid, c);
            var u := Usable(b, c.minSolFloorLamports);
            var cap := CapUsd(ValueUsd(u, mid), c.maxPositionUsd);
            && 0 <= bert <= b.bertRaw && 0 <= sol
            && (sol > 0 ==> sol + c.minSolFloorLamports <= b.solLamports)
            && ValueUsd(Tokens(sol, bert), mid) <= cap <= c.maxPositionUsd
            && cap <= ValueUsd(u, mid)
            && cap - mid.bertUsd / BERT_UNIT - mid.solUsd / SOL_UNIT < ValueUsd(Tokens(sol, bert), mid)
  {
    hide Scale, CapUsd, ScaledDown, AmountUsd, Times;
    var u := Usable(b, c.minSolFloorLamports);
    var total := ValueUsd(u, mid);
    UsableWorth(u, mid);
    var s := Scale(total, c.maxPositionUsd);
    ScaleInUnit(total, c.maxPositionUsd);
    ScaledDownWorth(u.solLamports, s, SOL_UNIT, mid.solUsd);
    ScaledDownWorth(u.bertRaw, s, BERT_UNIT, mid.bertUsd);
    TimesLaws(AmountUsd(u.bertRaw, BERT_UNIT, mid.bertUsd), AmountUsd(u.solLamports, SOL_UNIT, mid.solUsd), s);
    CapBounds(total, c.maxPositionUsd);
  }

  /**
    Scaling keeps the wallet's mix of tokens, to less than a raw unit of either, and a wallet worth no more than the cap
    goes in whole.
   */
  lemma {:induction false} OpenKeepsTheMix(b: Balances, mid: Mid, c: Config)
    requires mid.solUsd > 0.0 && mid.bertUsd > 0.0 && c.maxPositionUsd >= 0.0
    ensures var (sol, bert) := OpenAmounts(b, mid, c);
            var u := Usable(b, c.minSolFloorLamports);
            && -u.bertRaw <= sol * u.bertRaw - bert * u.solLamports <= u.solLamports
            && (0.0 < ValueUsd(u, mid) <= c.maxPositionUsd ==> sol == u.solLamports && bert == u.bertRaw)
  {
    var u := Usable(b, c.minSolFloorLamports);
    var total := ValueUsd(u, mid);
    UsableWorth(u, mid);
    hide ValueUsd, AmountUsd, Times;
    var s := Scale(total, c.maxPositionUsd);
    ScaleInUnit(total, c.maxPositionUsd);
    WholeIfBelow(total, c.maxPositionUsd);
    hide Scale, ScaledDown;
    ScaledDownBounds(u.solLamports, s);
    ScaledDownBounds(u.bertRaw, s);
    if s == 1.0 {
      ScaledByOne(u.solLamports);
      ScaledByOne(u.bertRaw);
    }
    CrossWithin(u.solLamports, u.bertRaw, ScaledDown(u.solLamports, s), ScaledDown(u.bertRaw, s), s);
  }

  lemma {:induction false} WholeIfBelow(total: real, cap: real)
    ensures 0.0 < total <= cap ==> Scale(total, cap) == 1.0
  {
  }

  lemma {:induction false} ScaledByOne(amount: nat)
    ensures ScaledDown(amount, 1.0) == amount
  {
  }

  lemma {:induction false} CrossWithin(a: int, b: int, i: int, j: int, s: real)
    requires 0 <= a && 0 <= b
    requires Times(a as real, s) - 1.0 < i as real <= Times(a as real, s)
    requires Times(b as real, s) - 1.0 < j as real <= Times(b as real, s)
    ensures -b <= i * b - j * a <= a
  {
    CrossBounds(a as real, b as real, i as real, j as real, s);
    assert (i * b) as real == Times(i as real, b as real) && (j * a) as real == Times(j as real, a as real);
  }

  lemma {:induction false} CrossBounds(p: real, q: real, x: real, y: real, s: real)
    requires 0.0 <= p && 0.0 <= q
    requires Times(p, s) - 1.0 < x <= Times(p, s) && Times(q, s) - 1.0 < y <= Times(q, s)
    ensures -q <= Times(x, q) - Times(y, p) <= p
  {
    hide Times;
    ScaledBetween(x, Times(p, s), q);
    ScaledBetween(y, Times(q, s), p);
    Crossed(p, q, s);
  }

  lemma {:induction false} Crossed(p: real, q: real, s: real)
    ensures Times(Times(p, s), q) == Times(Times(q, s), p)
  {
  }

  lemma {:induction false} ScaledBetween(x: real, hi: real, k: real)
    requires hi - 1.0 < x <= hi && 0.0 <= k
    ensures Times(hi, k) - k <= Times(x, k) <= Times(hi, k)
  {
    hide Times;
    TimesLaws(hi - x, x, k);
    assert hi - x + x == hi;
    Part(hi - x, k);
  }

  lemma {:induction false} Part(d: real, k: real)
    requires 0.0 <= d <= 1.0 && 0.0 <= k
    ensures 0.0 <= Times(d, k) <= k
  {
    Shrinks(k, d);
  }

  lemma {:induction false} CapBounds(total: real, cap: real)
    ensures CapUsd(total, cap) <= total && CapUsd(total, cap) <= cap
  {
  }

  lemma {:induction false} UsableWorth(u: Tokens, mid: Mid)
    requires mid.solUsd > 0.0 && mid.bertUsd > 0.0 && u.solLamports >= 0 && u.bertRaw >= 0
    ensures ValueUsd(u, mid) >= 0.0
  {
  }

  // ----- where an execution ends

  datatype Stage = DrawdownTripped | DrawdownUnknown | Capped | CloseFails | SizingFails | OpenFails | PersistFails
    | Done

  /** What the breaker takes the simulated close to be worth. */
  function EffectiveUsd(q: CloseQuote, mid: Mid): real {
    q.bertOut as real / BERT_UNIT * q.effectivePriceUsd + q.solOut as real / SOL_UNIT * mid.solUsd
  }

  predicate Tripped(p: Position, q: CloseQuote, mid: Mid, maxDrawdownPct: real) {
    p.totalValueUsd > 0.0 && EffectiveUsd(q, mid) / p.totalValueUsd < 1.0 - maxDrawdownPct / 100.0
  }

  /** What the simulated close yields: BERT at its effective price and SOL at the mid price. */
  function CloseUsd(q: CloseQuote, mid: Mid): real {
    Worth(Tokens(q.solOut, q.bertOut), Mid(mid.solUsd, q.effectivePriceUsd))
  }

  function StageOf(log: seq<int>, c: Config, at: Option<Position>, env: Env): Stage {
    if at.Some? && env.simulated.Threw? then DrawdownUnknown
    else if at.Some? && Tripped(at.value, env.simulated.value, env.mid, c.maxDrawdownPct) then DrawdownTripped
    else if CountDay(log, DayOf(env.now)) >= c.params.maxRebalancesPerDay then Capped
    else if at.Some? && !(env.buildsClose && env.closes) then CloseFails
    else if env.balances.Threw? || (!c.dryRun && env.finalBalances.Threw?) then SizingFails
    else if env.opens.Threw? then OpenFails
    else if !c.dryRun && (env.positionFaults || env.logFaults) then PersistFails
    else Done
  }

  /** The positions left on chain by the close. */
  function AfterClose(live: set<Mint>, c: Config, at: Option<Position>): set<Mint> {
    if c.dryRun || at.None? then live else live - {at.value.mint}
  }

  /** What an execution leaves behind, by the stage at which it ends. */
  function After(b: Bot, c: Config, at: Option<Position>, env: Env): (Bot, Outcome) {
    match StageOf(b.log, c, at, env)
    case DrawdownTripped => (b.(degraded := true), Skipped)
    case DrawdownUnknown => (b, Skipped)
    case Capped => (b, Skipped)
    case CloseFails => (b, Failed)
    case SizingFails => (b.(live := AfterClose(b.live, c, at), degraded := true), Failed)
    case OpenFails => (b.(live := AfterClose(b.live, c, at), degraded := true), Failed)
    case PersistFails =>
      var mint := env.opens.value;
      (Bot(if env.rollsBack then AfterClose(b.live, c, at) + {mint} - {mint} else AfterClose(b.live, c, at) + {mint},
           if env.positionFaults then b.stored else Some(mint), b.log, true), Failed)
    case Done =>
      var mint := env.opens.value;
      if c.dryRun then (b, Ok(mint))
      else (Bot(AfterClose(b.live, c, at) + {mint}, Some(mint), b.log + [env.now], b.degraded), Ok(mint))
  }

  // ----- the drawdown breaker

  lemma {:induction false} RatioBelow(value: real, entry: real, pct: real)
    requires entry > 0.0
    ensures value / entry < 1.0 - pct / 100.0 <==> 100.0 * value < (100.0 - pct) * entry
  {
    var r := value / entry;
    assert r * entry == value;
    var d := (1.0 - pct / 100.0) - r;
    assert d * entry == (1.0 - pct / 100.0) * entry - value;
    assert 100.0 * ((1.0 - pct / 100.0) * entry) == (100.0 - pct) * entry;
    if d > 0.0 {
      assert d * entry > 0.0;
    } else {
      assert d * entry <= 0.0;
    }
  }

  /**
    With a position of positive entry value and a returned quote, the breaker stops an execution exactly when the quote
    is worth less than the entry value less the tolerated percentage; it then changes nothing but the degraded flag.
   */
  lemma {:induction false} BreakerTripsIff(b: Bot, c: Config, p: Position, env: Env)
    requires env.simulated.Returned? && p.totalValueUsd > 0.0
    ensures StageOf(b.log, c, Some(p), env).DrawdownTripped? <==>
              100.0 * CloseUsd(env.simulated.value, env.mid) < (100.0 - c.maxDrawdownPct) * p.totalValueUsd
    ensures StageOf(b.log, c, Some(p), env).DrawdownTripped? ==>
              After(b, c, Some(p), env) == (b.(degraded := true), Skipped)
  {
    hide CountDay, DayOf, CloseUsd, Tripped;
    TrippedIff(p, env.simulated.value, env.mid, c.maxDrawdownPct);
  }

  lemma {:induction false} TrippedIff(p: Position, q: CloseQuote, mid: Mid, pct: real)
    requires p.totalValueUsd > 0.0
    ensures Tripped(p, q, mid, pct) <==> 100.0 * CloseUsd(q, mid) < (100.0 - pct) * p.totalValueUsd
  {
    hide CloseUsd, EffectiveUsd;
    EffectiveIsClose(q, mid);
    RatioBelow(EffectiveUsd(q, mid), p.totalValueUsd, pct);
  }

  lemma {:induction false} EffectiveIsClose(q: CloseQuote, mid: Mid)
    ensures EffectiveUsd(q, mid) == CloseUsd(q, mid)
  {
  }

  /** A quote worth no more than one that trips trips too. */
  lemma {:induction false} BreakerIsMonotone(b: Bot, c: Config, p: Position, env: Env, worse: CloseQuote)
    requires env.simulated.Returned? && StageOf(b.log, c, Some(p), env).DrawdownTripped?
    requires CloseUsd(worse, env.mid) <= CloseUsd(env.simulated.value, env.mid)
    ensures StageOf(b.log, c, Some(p), env.(simulated := Returned(worse))).DrawdownTripped?
  {
    hide CountDay, DayOf, CloseUsd;
    TrippedHasEntry(b, c, p, env);
    BreakerTripsIff(b, c, p, env);
    BreakerTripsIff(b, c, p, env.(simulated := Returned(worse)));
  }

  lemma {:induction false} TrippedHasEntry(b: Bot, c: Config, p: Position, env: Env)
    requires StageOf(b.log, c, Some(p), env).DrawdownTripped?
    ensures p.totalValueUsd > 0.0
  {
    hide CountDay, DayOf;
  }

  /** A position without an entry value, or none at all, is never stopped by the breaker; an unknown quote stops it. */
  lemma {:induction false} BreakerElsewhere(b: Bot, c: Config, at: Option<Position>, env: Env)
    ensures at.None? || at.value.totalValueUsd <= 0.0 ==> !StageOf(b.log, c, at, env).DrawdownTripped?
    ensures at.Some? && env.simulated.Threw? ==> After(b, c, at, env) == (b, Skipped)
  {
    hide CountDay, DayOf;
  }

  // ----- what an execution leaves behind

  /** Where the bot's state and the chain are as they were. */
  predicate Untouched(b: Bot, r: Bot) {
    r.live == b.live && r.stored == b.stored && r.log == b.log
  }

  /** The close, if there was one to make, went through. */
  predicate WentThrough(b: Bot, c: Config, at: Option<Position>, env: Env) {
    && (at.Some? ==> env.simulated.Returned? && !Tripped(at.value, env.simulated.value, env.mid, c.maxDrawdownPct)
                     && env.buildsClose && env.closes)
    && CountDay(b.log, DayOf(env.now)) < c.params.maxRebalancesPerDay
  }

  /**
    An execution that does not get past the close leaves chain, position and log alone. One that does either succeeds,
    flag as it was, or fails and leaves the bot degraded: nothing is half done in silence.
   */
  lemma {:induction false} HalfDoneIsDegraded(b: Bot, c: Config, at: Option<Position>, env: Env)
    ensures var (r, outcome) := After(b, c, at, env);
            if !WentThrough(b, c, at, env) then Untouched(b, r) && !outcome.Ok?
            else (outcome.Ok? && r.degraded == b.degraded) || (outcome.Failed? && r.degraded)
    ensures var (r, outcome) := After(b, c, at, env);
            r.degraded && !b.degraded ==>
              WentThrough(b, c, at, env) || StageOf(b.log, c, at, env).DrawdownTripped?
  {
    hide CountDay, DayOf, Tripped;
  }

  /** A dry run leaves chain, position and log alone, and does not depend on what only a real run does. */
  lemma {:induction false} DryRunTouchesNothing(b: Bot, c: Config, at: Option<Position>, env: Env, other: Env)
    requires c.dryRun
    ensures Untouched(b, After(b, c, at, env).0)
    ensures other == env.(finalBalances := other.finalBalances, positionFaults := other.positionFaults,
                          logFaults := other.logFaults, rollsBack := other.rollsBack) ==>
              After(b, c, at, other) == After(b, c, at, env)
  {
    hide CountDay, DayOf, Tripped;
  }

  // ----- the range

  /** The new range (src/rebalancer.ts:124-128): the price in its middle, rangeWidthPct of it wide. */
  function RangeAround(center: real, rangeWidthPct: real): PriceRange {
    var halfWidth := center * (rangeWidthPct / 100.0) / 2.0;
    PriceRange(center - halfWidth, center + halfWidth)
  }

  /** Around a positive price the range holds it, is symmetric about it and rangeWidthPct percent of it wide. */
  lemma {:induction false} RangeHoldsThePrice(center: real, rangeWidthPct: real)
    requires 0.0 < center && 0.0 <= rangeWidthPct
    ensures var r := RangeAround(center, rangeWidthPct);
            && Inside(r, center) && r.lowerBertUsd + r.upperBertUsd == 2.0 * center
            && 100.0 * (r.upperBertUsd - r.lowerBertUsd) == rangeWidthPct * center
  {
    assert 0.0 <= center * (rangeWidthPct / 100.0);
  }

  /** So a position just opened is not moved again while the price stays where it was. */
  lemma {:induction false} FreshRangeHolds(s: BotState, p: Params, rangeWidthPct: real)
    requires s.price.Some? && 0.0 < s.price.value.bertUsd && 0.0 <= rangeWidthPct
    requires s.position == Some(RangeAround(s.price.value.bertUsd, rangeWidthPct))
    ensures !Decide(s, p).Rebalance? && !Decide(s, p).AlertOnly?
  {
    hide RangeAround, Since, AllOut;
    RangeHoldsThePrice(s.price.value.bertUsd, rangeWidthPct);
  }

  class Rebalancer {
    const config: Config
    var stored: Option<Mint>
    var log: seq<int>
    var degraded: bool
    ghost var live: set<Mint>

    ghost function Now(): Bot
      reads this
    {
      Bot(live, stored, log, degraded)
    }

    constructor (config: Config, stored: Option<Mint>, log: seq<int>, degraded: bool, ghost live: set<Mint>)
      ensures this.config == config && Now() == Bot(live, stored, log, degraded)
    {
      this.config, this.stored, this.log, this.degraded, this.live := config, stored, log, degraded, live;
    }

    method GetRebalancesToday(now: int) returns (n: nat)
      ensures n == CountDay(log, DayOf(now))
    {
      var startOfDay := now / DAY * DAY;
      n := 0;
      for i := 0 to |log|
        invariant n == CountDay(log[..i], DayOf(now))
      {
        assert log[..i + 1][..i] == log[..i];
        if startOfDay <= log[i] < startOfDay + DAY {
          n := n + 1;
        }
      }
      assert log[..|log|] == log;
    }

    method LastRebalanceAt() returns (r: Option<int>)
      ensures r == NewestOf(log)
    {
      r := None;
      for i := 0 to |log|
        invariant r == NewestOf(log[..i])
      {
        assert log[..i + 1][..i] == log[..i];
        if r.None? || r.value <= log[i] {
          r := Some(log[i]);
        }
      }
      assert log[..|log|] == log;
    }

    /** Step 1; `stop` means the execution is skipped. */
    method CheckDrawdown(p: Position, env: Env) returns (stop: bool)
      modifies this`degraded
      ensures stop == (env.simulated.Threw? || Tripped(p, env.simulated.value, env.mid, config.maxDrawdownPct))
      ensures degraded == (old(degraded) || (stop && env.simulated.Returned?))
    {
      if env.simulated.Threw? {
        return true;
      }
      stop := Tripped(p, env.simulated.value, env.mid, config.maxDrawdownPct);
      if stop {
        degraded := true;
      }
    }

    /** Step 9: store the position and log the rebalance, or close what was just opened. */
    method Persist(mint: Mint, env: Env) returns (ok: bool)
      modifies this
      ensures ok == !(env.positionFaults || env.logFaults)
      ensures stored == (if env.positionFaults then old(stored) else Some(mint))
      ensures log == (if ok then old(log) + [env.now] else old(log))
      ensures live == (if !ok && env.rollsBack then old(live) - {mint} else old(live))
      ensures degraded == (old(degraded) || !ok)
    {
      ok := !env.positionFaults;
      if ok {
        stored := Some(mint);
        ok := !env.logFaults;
        if ok {
          log := log + [env.now];
        }
      }
      if !ok {
        if env.rollsBack {
          live := live - {mint};
        }
        degraded := true;
      }
    }

    method SizePosition(finalBal: Balances, mid: Mid) returns (solLamports: int, bertRaw: int)
      ensures (solLamports, bertRaw) == OpenAmounts(finalBal, mid, config)
    {
      hide AmountUsd, ScaledDown;
      var usableSol := SpendableSol(finalBal, config.minSolFloorLamports);
      var totalUsd := ValueUsd(Tokens(usableSol, finalBal.bertRaw), mid);
      var capUsd := CapUsd(totalUsd, config.maxPositionUsd);
      var scale := if totalUsd > 0.0 then capUsd / totalUsd else 0.0;
      bertRaw := ScaledDown(finalBal.bertRaw, scale);
      solLamports := ScaledDown(usableSol, scale);
    }

    /** `opening` is what a position was to be opened with on chain. */
    method ExecuteRebalance(at: Option<Position>, env: Env) returns (outcome: Outcome, opening: Option<Opening>)
      modifies this
      ensures (Now(), outcome) == After(old(Now()), config, at, env)
      ensures opening.Some? ==>
                && env.finalBalances.Returned?
                && opening.value.range == RangeAround(env.mid.bertUsd, config.rangeWidthPct)
                && (opening.value.solLamports, opening.value.bertRaw) ==
                     OpenAmounts(env.finalBalances.value, env.mid, config)
      ensures opening.None? ==> config.dryRun || live <= old(live)
    {
      hide OpenAmounts, Tripped, CountDay, DayOf;
      opening := None;
      if at.Some? {
        var stop := CheckDrawdown(at.value, env);
        if stop {
          return Skipped, None;
        }
      }
      var today := GetRebalancesToday(env.now);
      if today >= config.params.maxRebalancesPerDay {
        return Skipped, None;
      }
      if at.Some? {
        if !env.buildsClose || !env.closes {
          return Failed, None;
        }
        if !config.dryRun {
          live := live - {at.value.mint};
        }
      }
      if env.balances.Threw? || (!config.dryRun && env.finalBalances.Threw?) {
        degraded := true;
        return Failed, None;
      }
      if !config.dryRun {
        var sol, bert := SizePosition(env.finalBalances.value, env.mid);
        var halfWidth := env.mid.bertUsd * (config.rangeWidthPct / 100.0) / 2.0;
        opening := Some(Opening(PriceRange(env.mid.bertUsd - halfWidth, env.mid.bertUsd + halfWidth), sol, bert));
      }
      if env.opens.Threw? {
        degraded := true;
        return Failed, opening;
      }
      var mint := env.opens.value;
      if !config.dryRun {
        live := live + {mint};
        var persisted := Persist(mint, env);
        if !persisted {
          return Failed, opening;
        }
      }
      outcome := Ok(mint);
    }
  }
}
