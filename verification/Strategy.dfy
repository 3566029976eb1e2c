/**
  When the bot rebalances (src/strategy.ts), and the bounded price history it decides on (src/main.ts:41,547-550).
  Times are milliseconds.
 */
module Strategy {
  import opened Prelude

  const MAX_HISTORY_SAMPLES := 120
  const MINUTE := 60_000

  datatype Sample = Sample(bertUsd: real, ts: int)

  datatype PriceRange = PriceRange(lowerBertUsd: real, upperBertUsd: real)

  datatype Params = Params(sustainedMinutes: int, minRebalanceIntervalMin: int, maxRebalancesPerDay: int,
                           oracleStaleMinutes: int)

  datatype BotState = BotState(price: Option<Sample>, priceHistory: seq<Sample>, position: Option<PriceRange>,
                               lastRebalanceAt: Option<int>,
                               rebalancesToday: nat, killSwitchTripped: bool, degraded: bool, now: int)

  datatype Reason = KillSwitch | Degraded | OracleStale | NoPrice | NoPosition | InRange | NotEnoughHistory
    | NotSustained
                  | CoolingDown | DailyCapReached

  datatype Decision = Hold(reason: Reason) | Pause(reason: Reason) | AlertOnly(reason: Reason)
    | Rebalance(newCenterUsd: real)

  predicate OutOfRange(r: PriceRange, price: real) {
    price < r.lowerBertUsd || price > r.upperBertUsd
  }

  /** The range the position earns in, both ends included. */
  predicate Inside(r: PriceRange, price: real) {
    r.lowerBertUsd <= price <= r.upperBertUsd
  }

  function Since(h: seq<Sample>, cutoff: int): seq<Sample> {
    if h == [] then []
    else Since(h[..|h| - 1], cutoff) + (if h[|h| - 1].ts >= cutoff then [h[|h| - 1]] else [])
  }

  predicate AllOut(h: seq<Sample>, r: PriceRange) {
    forall i :: 0 <= i < |h| ==> OutOfRange(r, h[i].bertUsd)
  }

  function Decide(s: BotState, p: Params): Decision {
    if s.killSwitchTripped then Pause(KillSwitch)
    else if s.degraded then Pause(Degraded)
    else if s.price.Some? && s.now - s.price.value.ts > p.oracleStaleMinutes * MINUTE then Pause(OracleStale)
    else if s.price.None? then Hold(NoPrice)
    else if s.position.None? then Hold(NoPosition)
    else if !OutOfRange(s.position.value, s.price.value.bertUsd) then Hold(InRange)
    else
      var recent := Since(s.priceHistory, s.now - p.sustainedMinutes * MINUTE);
      if |recent| < p.sustainedMinutes then Hold(NotEnoughHistory)
      else if !AllOut(recent, s.position.value) then Hold(NotSustained)
      else if s.lastRebalanceAt.Some?
        && s.now - s.lastRebalanceAt.value < p.minRebalanceIntervalMin * MINUTE
      then AlertOnly(CoolingDown)
      else if s.rebalancesToday >= p.maxRebalancesPerDay then AlertOnly(DailyCapReached)
      else Rebalance(s.price.value.bertUsd)
  }

  /**
    A rebalance is decided only if nothing blocks it and every sample of the last sustainedMinutes, of which there are
    at least as many, lies outside the position's range; and whenever all that holds it is decided.
   */
  lemma {:induction false} RebalancesIff(s: BotState, p: Params)
    ensures Decide(s, p).Rebalance? <==>
              && !s.killSwitchTripped && !s.degraded
              && s.price.Some? && s.now <= s.price.value.ts + p.oracleStaleMinutes * MINUTE
              && s.position.Some? && !Inside(s.position.value, s.price.value.bertUsd)
              && p.sustainedMinutes <= |Since(s.priceHistory, s.now - p.sustainedMinutes * MINUTE)|
              && (forall x :: x in s.priceHistory && s.now - p.sustainedMinutes * MINUTE <= x.ts ==>
                    !Inside(s.position.value, x.bertUsd))
              && (s.lastRebalanceAt.Some? ==> s.lastRebalanceAt.value + p.minRebalanceIntervalMin * MINUTE <= s.now)
              && s.rebalancesToday < p.maxRebalancesPerDay
  {
    var cutoff := s.now - p.sustainedMinutes * MINUTE;
    SinceExact(s.priceHistory, cutoff);
    var recent := Since(s.priceHistory, cutoff);
    if s.position.Some? {
      var r := s.position.value;
      if AllOut(recent, r) {
        forall x | x in s.priceHistory && cutoff <= x.ts ensures OutOfRange(r, x.bertUsd) {
          assert x in recent;
        }
      }
      if forall x :: x in s.priceHistory && cutoff <= x.ts ==> OutOfRange(r, x.bertUsd) {
        forall i | 0 <= i < |recent| ensures OutOfRange(r, recent[i].bertUsd) {
          assert recent[i] in recent;
        }
      }
    }
  }

  /** The sustained window is full and lies outside the position's range throughout. */
  ghost predicate Sustained(s: BotState, p: Params, r: PriceRange) {
    && p.sustainedMinutes <= |Since(s.priceHistory, s.now - p.sustainedMinutes * MINUTE)|
    && forall x :: x in s.priceHistory && s.now - p.sustainedMinutes * MINUTE <= x.ts ==> !Inside(r, x.bertUsd)
  }

  ghost predicate Blocked(s: BotState, p: Params) {
    s.killSwitchTripped || s.degraded || (s.price.Some? && s.now > s.price.value.ts + p.oracleStaleMinutes * MINUTE)
  }

  ghost predicate Drifted(s: BotState, p: Params) {
    && s.price.Some? && s.position.Some? && !Inside(s.position.value, s.price.value.bertUsd)
    && Sustained(s, p, s.position.value)
  }

  ghost predicate TooSoon(s: BotState, p: Params) {
    || (s.lastRebalanceAt.Some? && s.now < s.lastRebalanceAt.value + p.minRebalanceIntervalMin * MINUTE)
    || s.rebalancesToday >= p.maxRebalancesPerDay
  }

  /**
    Every decision exactly: paused when blocked, otherwise rebalanced to the current price when the price has drifted
    for long enough, an alert alone when that is too soon, and held in all other cases.
   */
  lemma {:induction false} DecisionsExact(s: BotState, p: Params)
    ensures Decide(s, p).Pause? <==> Blocked(s, p)
    ensures Decide(s, p).AlertOnly? <==> !Blocked(s, p) && Drifted(s, p) && TooSoon(s, p)
    ensures Decide(s, p).Rebalance? <==> !Blocked(s, p) && Drifted(s, p) && !TooSoon(s, p)
    ensures Decide(s, p).Rebalance? ==> Decide(s, p).newCenterUsd == s.price.value.bertUsd
  {
    if s.position.Some? {
      RecentAllOut(s, p, s.position.value);
    }
    hide Since, AllOut;
  }

  lemma {:induction false} RecentAllOut(s: BotState, p: Params, r: PriceRange)
    ensures var cutoff := s.now - p.sustainedMinutes * MINUTE;
            AllOut(Since(s.priceHistory, cutoff), r) <==>
              forall x :: x in s.priceHistory && cutoff <= x.ts ==> OutOfRange(r, x.bertUsd)
  {
    var cutoff := s.now - p.sustainedMinutes * MINUTE;
    SinceExact(s.priceHistory, cutoff);
    var recent := Since(s.priceHistory, cutoff);
    if AllOut(recent, r) {
      forall x | x in s.priceHistory && cutoff <= x.ts ensures OutOfRange(r, x.bertUsd) {
        assert x in recent;
      }
    } else {
      var i :| 0 <= i < |recent| && !OutOfRange(r, recent[i].bertUsd);
      assert recent[i] in recent;
    }
  }

  lemma {:induction false} SinceExact(h: seq<Sample>, cutoff: int)
    ensures forall x :: x in Since(h, cutoff) <==> x in h && x.ts >= cutoff
  {
    if h != [] {
      var n := |h| - 1;
      SinceExact(h[..n], cutoff);
      assert h == h[..n] + [h[n]];
    }
  }

  // ----- the bounded history

  /** The newest samples, as many as are kept. */
  function Kept(h: seq<Sample>): seq<Sample> {
    if |h| > MAX_HISTORY_SAMPLES then h[|h| - MAX_HISTORY_SAMPLES..] else h
  }

  class PriceHistory {
    var samples: seq<Sample>
    /** Every sample ever pushed. */
    ghost var all: seq<Sample>

    ghost predicate Valid()
      reads this
    {
      samples == Kept(all)
    }

    constructor ()
      ensures Valid() && all == []
    {
      samples, all := [], [];
    }

    method Push(s: Sample)
      requires Valid()
      modifies this
      ensures Valid() && all == old(all) + [s]
    {
      samples := samples + [s];
      all := all + [s];
      if |samples| > MAX_HISTORY_SAMPLES {
        samples := samples[1..];
      }
    }
  }

  /** Consecutive samples are at least the polling interval apart, and none is in the future. */
  ghost predicate Spaced(h: seq<Sample>, pollIntervalSec: nat, now: int) {
    && (forall i :: 0 <= i < |h| - 1 ==> h[i].ts + pollIntervalSec * 1000 <= h[i + 1].ts)
    && (h != [] ==> h[|h| - 1].ts <= now)
  }

  lemma {:induction false} SpacedGap(h: seq<Sample>, pollIntervalSec: nat, now: int, i: nat, j: nat)
    requires Spaced(h, pollIntervalSec, now) && i <= j < |h|
    ensures h[i].ts + (j - i) * (pollIntervalSec * 1000) <= h[j].ts
  {
    if i < j {
      SpacedGap(h, pollIntervalSec, now, i, j - 1);
      Distribute(j - 1 - i, pollIntervalSec * 1000);
    }
  }

  lemma {:induction false} Distribute(n: int, gap: int)
    ensures (n + 1) * gap == n * gap + gap
  {
  }

  lemma {:induction false} SinceSkips(a: seq<Sample>, b: seq<Sample>, cutoff: int)
    requires forall i :: 0 <= i < |a| ==> a[i].ts < cutoff
    ensures Since(a + b, cutoff) == Since(b, cutoff)
  {
    if b == [] {
      assert a + b == a;
      SinceNone(a, cutoff);
    } else {
      var n := |b| - 1;
      assert (a + b)[..|a + b| - 1] == a + b[..n];
      SinceSkips(a, b[..n], cutoff);
    }
  }

  lemma {:induction false} SinceNone(a: seq<Sample>, cutoff: int)
    requires forall i :: 0 <= i < |a| ==> a[i].ts < cutoff
    ensures Since(a, cutoff) == []
  {
    if a != [] {
      SinceNone(a[..|a| - 1], cutoff);
    }
  }

  lemma {:induction false} DroppedIsOld(h: seq<Sample>, pollIntervalSec: nat, now: int, i: nat)
    requires Spaced(h, pollIntervalSec, now) && i + MAX_HISTORY_SAMPLES < |h|
    ensures h[i].ts + MAX_HISTORY_SAMPLES * (pollIntervalSec * 1000) <= now
  {
    var j, last := i + MAX_HISTORY_SAMPLES, |h| - 1;
    SpacedGap(h, pollIntervalSec, now, i, j);
    SpacedGap(h, pollIntervalSec, now, j, last);
    Later(last - j, pollIntervalSec * 1000, 0);
  }

  lemma {:induction false} KeptIsEnough(h: seq<Sample>, pollIntervalSec: nat, now: int, sustainedMinutes: int)
    requires Spaced(h, pollIntervalSec, now) && sustainedMinutes * 60 < MAX_HISTORY_SAMPLES * pollIntervalSec
    ensures Since(Kept(h), now - sustainedMinutes * MINUTE) == Since(h, now - sustainedMinutes * MINUTE)
  {
    if |h| > MAX_HISTORY_SAMPLES {
      hide Since;
      var cutoff := now - sustainedMinutes * MINUTE;
      var n := |h| - MAX_HISTORY_SAMPLES;
      var dropped := h[..n];
      forall i | 0 <= i < n ensures dropped[i].ts < cutoff {
        DroppedIsOld(h, pollIntervalSec, now, i);
      }
      assert h == dropped + Kept(h);
      SinceSkips(dropped, Kept(h), cutoff);
    }
  }

  /** Deciding on the kept samples and on all samples gives the same decision. */
  ghost predicate Agree(s: BotState, p: Params) {
    Decide(s.(priceHistory := Kept(s.priceHistory)), p) == Decide(s, p)
  }

  lemma {:induction false} KeptDecidesTheSame(s: BotState, p: Params, pollIntervalSec: nat)
    requires Spaced(s.priceHistory, pollIntervalSec, s.now)
        && p.sustainedMinutes * 60 < MAX_HISTORY_SAMPLES * pollIntervalSec
    ensures Agree(s, p)
  {
    hide Since;
    KeptIsEnough(s.priceHistory, pollIntervalSec, s.now, p.sustainedMinutes);
  }

  // ----- and the bound is exact

  /** One sample more than is kept, an interval apart; only the oldest lies in range. */
  function Relapse(pollIntervalSec: nat): seq<Sample> {
    seq(MAX_HISTORY_SAMPLES + 1, i requires 0 <= i < MAX_HISTORY_SAMPLES + 1 =>
      Sample(if i == 0 then 1.0 else 9.0, (i - MAX_HISTORY_SAMPLES) * (pollIntervalSec * 1000)))
  }

  function RelapseState(pollIntervalSec: nat): BotState {
    BotState(Some(Sample(9.0, 0)), Relapse(pollIntervalSec), Some(PriceRange(0.5, 2.0)), None, 0, false, false, 0)
  }

  lemma {:induction false} RelapseSpaced(pollIntervalSec: nat)
    ensures Spaced(Relapse(pollIntervalSec), pollIntervalSec, 0)
  {
  }

  lemma {:induction false} SinceAll(h: seq<Sample>, cutoff: int)
    requires forall i :: 0 <= i < |h| ==> h[i].ts >= cutoff
    ensures Since(h, cutoff) == h
  {
    if h != [] {
      SinceAll(h[..|h| - 1], cutoff);
    }
  }

  /** All of it lies in the sustained window. */
  lemma {:induction false} RelapseIsRecent(sustainedMinutes: int, pollIntervalSec: nat)
    requires MAX_HISTORY_SAMPLES * pollIntervalSec <= sustainedMinutes * 60
    ensures var h := Relapse(pollIntervalSec);
            var cutoff := 0 - sustainedMinutes * MINUTE;
            Since(h, cutoff) == h && Since(Kept(h), cutoff) == Kept(h)
  {
    var h := Relapse(pollIntervalSec);
    var cutoff := 0 - sustainedMinutes * MINUTE;
    forall i | 0 <= i < |h| ensures h[i].ts >= cutoff {
      Later(i - MAX_HISTORY_SAMPLES, pollIntervalSec * 1000, -MAX_HISTORY_SAMPLES);
    }
    hide Relapse;
    SinceAll(h, cutoff);
    SinceAll(Kept(h), cutoff);
  }

  lemma {:induction false} RelapseRanges(pollIntervalSec: nat)
    ensures var h := Relapse(pollIntervalSec);
            && |Kept(h)| == MAX_HISTORY_SAMPLES && |h| > MAX_HISTORY_SAMPLES
            && AllOut(Kept(h), PriceRange(0.5, 2.0)) && !AllOut(h, PriceRange(0.5, 2.0))
  {
    var h := Relapse(pollIntervalSec);
    assert !OutOfRange(PriceRange(0.5, 2.0), h[0].bertUsd);
    assert forall i :: 0 <= i < |Kept(h)| ==> Kept(h)[i].bertUsd == 9.0;
  }

  lemma {:induction false} RelapseDisagrees(p: Params, pollIntervalSec: nat)
    requires p.sustainedMinutes <= MAX_HISTORY_SAMPLES
    requires MAX_HISTORY_SAMPLES * pollIntervalSec <= p.sustainedMinutes * 60
    requires 0 <= p.oracleStaleMinutes
    ensures !Agree(RelapseState(pollIntervalSec), p)
  {
    hide Since, Relapse, Kept, AllOut;
    RelapseIsRecent(p.sustainedMinutes, pollIntervalSec);
    RelapseRanges(pollIntervalSec);
    assert Decide(RelapseState(pollIntervalSec), p) == Hold(NotSustained);
  }

  lemma {:induction false} Later(n: int, gap: nat, m: int)
    requires m <= n
    ensures m * gap <= n * gap
  {
  }

  /**
    For every configuration the schema admits (src/config.ts:68-82): trimming never changes a decision, whatever the
    prices, if and only if the kept samples span more than the sustained window.
   */
  lemma {:induction false} TrimmingIsSafeIff(p: Params, pollIntervalSec: nat)
    requires p.sustainedMinutes <= MAX_HISTORY_SAMPLES && 0 <= p.oracleStaleMinutes
    ensures (forall s: BotState :: Spaced(s.priceHistory, pollIntervalSec, s.now) ==> Agree(s, p)) <==>
              p.sustainedMinutes * 60 < MAX_HISTORY_SAMPLES * pollIntervalSec
  {
    hide Decide;
    if p.sustainedMinutes * 60 < MAX_HISTORY_SAMPLES * pollIntervalSec {
      forall s: BotState | Spaced(s.priceHistory, pollIntervalSec, s.now) ensures Agree(s, p) {
        KeptDecidesTheSame(s, p, pollIntervalSec);
      }
    } else {
      RelapseSpaced(pollIntervalSec);
      RelapseDisagrees(p, pollIntervalSec);
      assert Spaced(RelapseState(pollIntervalSec).priceHistory, pollIntervalSec, 0);
    }
  }
}
