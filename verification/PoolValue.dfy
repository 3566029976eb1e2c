/**
  What one drain does to the value behind a share (src/vault/withdrawalExecutor.ts:60-207)
  at fixed prices: the pool is followed row by row through the quote, an optional
  partial close and the payout.
 */
module PoolValue {
  import opened Prelude
  import opened ShareMath

  datatype Pool = Pool(bal: Balances, positionUsd: real, shares: real)

  datatype Ending =
    | Completed            // paid and burned
    | Failed               // nothing paid, nothing burned
    | PaidNotBurned        // paid, but the database write after the transfer failed

  /** One row of the drain; `freed` is what its partial close moved into the wallet (zero if there was none). */
  datatype RowRun = RowRun(burned: real, fee: real, freed: Balances, ending: Ending)

  /** Prices and reserve, fixed during one drain. */
  datatype Market = Market(mid: Mid, reserve: nat)

  ghost predicate Sane(m: Market) {
    m.mid.solUsd > 0.0 && m.mid.bertUsd > 0.0
  }

  function TotalUsd(m: Market, p: Pool): real {
    VaultNav(m.mid, p.bal, m.reserve, p.positionUsd).totalUsd
  }

  /** The value per share the next row of the drain computes. */
  function NavPerShare(m: Market, p: Pool): real {
    ComputeNavPerShare(TotalUsd(m, p), p.shares)
  }

  function Plus(a: Balances, b: Balances): Balances {
    Balances(a.solLamports + b.solLamports, a.bertRaw + b.bertRaw)
  }

  function Less(have: nat, n: int): nat {
    if 0 <= n <= have then have - n else have
  }

  /** A partial close at fixed prices: tokens leave the position at their price and reach the wallet. */
  function AfterClose(m: Market, p: Pool, freed: Balances): Pool {
    p.(bal := Plus(p.bal, freed),
       positionUsd := p.positionUsd - Worth(Tokens(freed.solLamports, freed.bertRaw), m.mid))
  }

  function RowNeed(m: Market, p: Pool, r: RowRun): Tokens {
    var q := MakeQuote(m.mid, p.bal, m.reserve, p.positionUsd, p.shares, r.burned - r.fee);
    if q.Some? then q.value.need else Tokens(0, 0)
  }

  function AfterPay(p: Pool, need: Tokens): Pool {
    p.(bal := Balances(Less(p.bal.solLamports, need.solLamports), Less(p.bal.bertRaw, need.bertRaw)))
  }

  /** The pool the next row sees. */
  function Next(m: Market, p: Pool, r: RowRun): Pool {
    var c := AfterClose(m, p, r.freed);
    match r.ending
    case Failed => c
    case PaidNotBurned => AfterPay(c, RowNeed(m, p, r))
    case Completed => AfterPay(c, RowNeed(m, p, r)).(shares := p.shares - r.burned)
  }

  function After(m: Market, p: Pool, rows: seq<RowRun>): Pool
    decreases |rows|
  {
    if rows == [] then p else After(m, Next(m, p, rows[0]), rows[1..])
  }

  /**
    A row the drain can run: fee within burned within the total, a side is freed only if the wallet is short of it, the
    position covers what is freed, and a row that pays is covered by the wallet it re-read.
   */
  ghost predicate Feasible(m: Market, p: Pool, r: RowRun) {
    && 0.0 <= r.fee <= r.burned <= p.shares
    && (r.freed.solLamports > 0 ==> RowNeed(m, p, r).solLamports > SpendableSol(p.bal, m.reserve))
    && (r.freed.bertRaw > 0 ==> RowNeed(m, p, r).bertRaw > p.bal.bertRaw)
    && 0.0 <= AfterClose(m, p, r.freed).positionUsd
    && (!r.ending.Failed? ==> Covers(Plus(p.bal, r.freed), m.reserve, RowNeed(m, p, r)))
  }

  /** Every row completes or fails, and can run where it stands. */
  ghost predicate CleanRun(m: Market, p: Pool, rows: seq<RowRun>)
    decreases |rows|
  {
    rows != [] ==>
      && !rows[0].ending.PaidNotBurned?
      && Feasible(m, p, rows[0])
      && CleanRun(m, Next(m, p, rows[0]), rows[1..])
  }

  // ----- the partial close

  /** The freed SOL that only refills the reserve, which is not NAV. */
  function Refill(m: Market, p: Pool, freed: Balances): nat {
    if p.bal.solLamports >= m.reserve then 0
    else if freed.solLamports < m.reserve - p.bal.solLamports then freed.solLamports
    else m.reserve - p.bal.solLamports
  }

  /**
    A value-preserving partial close lowers the vault's NAV by exactly the SOL that refills the reserve: it keeps the
    NAV exactly when it frees no SOL or the wallet already holds the reserve.
   */
  lemma CloseKeepsTotal(m: Market, p: Pool, freed: Balances)
    requires Sane(m)
    ensures TotalUsd(m, AfterClose(m, p, freed)) == TotalUsd(m, p) - SolWorth(Refill(m, p, freed), m.mid)
    ensures 0.0 <= SolWorth(Refill(m, p, freed), m.mid)
    ensures TotalUsd(m, AfterClose(m, p, freed)) == TotalUsd(m, p)
       <==> freed.solLamports == 0 || p.bal.solLamports >= m.reserve
  {
    var c := AfterClose(m, p, freed);
    FreeWorth(p.bal, m.reserve, m.mid, p.positionUsd);
    FreeWorth(c.bal, m.reserve, m.mid, c.positionUsd);
    var before, after := SpendableSol(p.bal, m.reserve), SpendableSol(c.bal, m.reserve);
    SolWorthDiff(after, before, m.mid);
    BertWorthDiff(c.bal.bertRaw, p.bal.bertRaw, m.mid);
    assert after - before == freed.solLamports - Refill(m, p, freed);
    SolWorthDiff(freed.solLamports, Refill(m, p, freed), m.mid);
    SolWorthSign(Refill(m, p, freed), m.mid);
  }

  lemma SolWorthSign(lamports: nat, mid: Mid)
    requires mid.solUsd > 0.0
    ensures 0.0 <= SolWorth(lamports, mid)
    ensures SolWorth(lamports, mid) == 0.0 <==> lamports == 0
    ensures 1 <= lamports ==> SolWorth(1, mid) <= SolWorth(lamports, mid)
  {
    ScaleMonotone(0.0, lamports as real, mid.solUsd, SOL_UNIT);
    if lamports > 0 {
      ScaleStrict(0.0, lamports as real, mid.solUsd, SOL_UNIT);
      ScaleMonotone(1.0, lamports as real, mid.solUsd, SOL_UNIT);
    }
  }

  lemma SolWorthDiff(a: int, b: int, mid: Mid)
    ensures SolWorth(a - b, mid) == SolWorth(a, mid) - SolWorth(b, mid)
  {
  }

  lemma BertWorthDiff(a: int, b: int, mid: Mid)
    ensures BertWorth(a - b, mid) == BertWorth(a, mid) - BertWorth(b, mid)
  {
  }

  // ----- the payout

  /** A covered, non-negative payout lowers the total by exactly its worth and leaves the reserve alone. */
  lemma PayLowersTotal(m: Market, p: Pool, need: Tokens)
    requires Sane(m) && Covers(p.bal, m.reserve, need) && 0 <= need.solLamports && 0 <= need.bertRaw
    ensures TotalUsd(m, AfterPay(p, need)) == TotalUsd(m, p) - Worth(need, m.mid)
    ensures p.bal.solLamports >= m.reserve ==> AfterPay(p, need).bal.solLamports >= m.reserve
  {
    var a := AfterPay(p, need);
    FreeWorth(p.bal, m.reserve, m.mid, p.positionUsd);
    FreeWorth(a.bal, m.reserve, m.mid, a.positionUsd);
    SolWorthDiff(SpendableSol(p.bal, m.reserve), need.solLamports, m.mid);
    BertWorthDiff(p.bal.bertRaw, need.bertRaw, m.mid);
  }

  /** What a row owes: its net shares at the current value per share. */
  function NetUsd(m: Market, p: Pool, r: RowRun): real {
    (r.burned - r.fee) * NavPerShare(m, p)
  }

  /** What a row needs is non-negative and worth at most its net shares at the current value per share. */
  lemma NeedWithinClaim(m: Market, p: Pool, r: RowRun)
    requires Sane(m) && 0.0 <= p.positionUsd && 0.0 <= r.fee <= r.burned <= p.shares
    ensures 0 <= RowNeed(m, p, r).solLamports && 0 <= RowNeed(m, p, r).bertRaw
    ensures 0.0 <= TotalUsd(m, p)
    ensures Worth(RowNeed(m, p, r), m.mid) <= NetUsd(m, p, r)
  {
    NavFacts(m, p);
    ClaimWithinTotal(r.burned - r.fee, p.shares, TotalUsd(m, p));
    QuoteClaim(NavPerShare(m, p), SolFrac(m, p), m.mid, r.burned - r.fee);
  }

  function SolFrac(m: Market, p: Pool): real {
    VaultNav(m.mid, p.bal, m.reserve, p.positionUsd).solFrac
  }

  lemma NavFacts(m: Market, p: Pool)
    requires Sane(m) && 0.0 <= p.positionUsd
    ensures 0.0 <= TotalUsd(m, p) && 0.0 <= SolFrac(m, p) <= 1.0
  {
  }

  lemma QuoteClaim(navPerShare: real, solFrac: real, mid: Mid, net: real)
    requires mid.solUsd > 0.0 && mid.bertUsd > 0.0 && 0.0 <= net * navPerShare && 0.0 <= solFrac <= 1.0
    ensures var q := QuoteAt(navPerShare, solFrac, mid, net);
            && q.Some? && 0 <= q.value.need.solLamports && 0 <= q.value.need.bertRaw
            && Worth(q.value.need, mid) <= net * navPerShare
  {
    ClaimSplit(net * navPerShare, solFrac, mid);
  }

  lemma ClaimSplit(usd: real, solFrac: real, mid: Mid)
    requires mid.solUsd > 0.0 && mid.bertUsd > 0.0 && 0.0 <= usd && 0.0 <= solFrac <= 1.0
    ensures var t := SplitUsdIntoTokens(usd, solFrac, mid).value;
            0 <= t.solLamports && 0 <= t.bertRaw && Worth(t, mid) <= usd
  {
    SplitNonNegative(usd, solFrac, mid);
    SplitPaysWithinDust(usd, solFrac, mid);
  }

  lemma SplitNonNegative(usd: real, solFrac: real, mid: Mid)
    requires mid.solUsd > 0.0 && mid.bertUsd > 0.0 && 0.0 <= usd && 0.0 <= solFrac <= 1.0
    ensures var t := SplitUsdIntoTokens(usd, solFrac, mid).value; 0 <= t.solLamports && 0 <= t.bertRaw
  {
  }

  // ----- one row

  /**
    A row that pays lowers the total by what it pays, which is at most its net claim, and by what refills the
    reserve.
   */
  lemma PaidRow(m: Market, p: Pool, r: RowRun)
    requires Sane(m) && Feasible(m, p, r) && 0.0 <= p.positionUsd && !r.ending.Failed?
    ensures TotalUsd(m, Next(m, p, r))
        == TotalUsd(m, p) - SolWorth(Refill(m, p, r.freed), m.mid) - Worth(RowNeed(m, p, r), m.mid)
    ensures 0.0 <= TotalUsd(m, p) && Worth(RowNeed(m, p, r), m.mid) <= NetUsd(m, p, r)
    ensures m.reserve <= p.bal.solLamports ==> m.reserve <= Next(m, p, r).bal.solLamports
    ensures 0 <= RowNeed(m, p, r).solLamports && 0 <= RowNeed(m, p, r).bertRaw
  {
    var c := AfterClose(m, p, r.freed);
    CloseKeepsTotal(m, p, r.freed);
    NeedWithinClaim(m, p, r);
    PayLowersTotal(m, c, RowNeed(m, p, r));
    SameTotal(m, Next(m, p, r), AfterPay(c, RowNeed(m, p, r)));
  }

  lemma SameTotal(m: Market, p: Pool, q: Pool)
    requires p.bal == q.bal && p.positionUsd == q.positionUsd
    ensures TotalUsd(m, p) == TotalUsd(m, q)
  {
  }

  /**
    How a payout and a burn move the ratio: the fee's worth and the dust the payout leaves, against what else was
    lost.
   */
  lemma BurnMovesRatio(v: real, t: real, net: real, fee: real, paid: real, lost: real)
    requires 0.0 < t - net - fee && 0.0 < t
    ensures var kept := fee * (v / t) + (net * (v / t) - paid);
            && (v / t <= (v - lost - paid) / (t - net - fee) <==> lost <= kept)
            && (v / t < (v - lost - paid) / (t - net - fee) <==> lost < kept)
  {
    var n := v / t;
    var left := t - net - fee;
    var kept := fee * n + (net * n - paid);
    assert n * t == v;
    assert n * left == n * t - n * net - n * fee;
    SurplusSign(n, left, kept - lost, v - lost - paid);
  }

  lemma SurplusSign(n: real, left: real, surplus: real, w: real)
    requires 0.0 < left && w == n * left + surplus
    ensures n <= w / left <==> 0.0 <= surplus
    ensures n < w / left <==> 0.0 < surplus
  {
    assert w / left == n + surplus / left;
    assert surplus / left * left == surplus;
    if surplus > 0.0 {
      assert surplus / left > 0.0;
    } else if surplus < 0.0 {
      assert surplus / left < 0.0;
    }
  }

  /** What stays in the pool for the other holders: the fee's worth and the dust of the payout. */
  function LeftBehind(m: Market, p: Pool, r: RowRun): real {
    FeeUsd(m, p, r) + (NetUsd(m, p, r) - Worth(RowNeed(m, p, r), m.mid))
  }

  function FeeUsd(m: Market, p: Pool, r: RowRun): real {
    r.fee * NavPerShare(m, p)
  }

  lemma LeftBehindSign(m: Market, p: Pool, r: RowRun)
    requires Sane(m) && Feasible(m, p, r) && 0.0 <= p.positionUsd && r.ending.Completed? && 0.0 < p.shares
    ensures 0.0 <= LeftBehind(m, p, r)
    ensures 0.0 < r.fee && 0.0 < TotalUsd(m, p) ==> 0.0 < LeftBehind(m, p, r)
  {
    hide TotalUsd, NavPerShare, RowNeed, Worth, SolWorth, FeeUsd, NetUsd;
    PaidRow(m, p, r);
    FeeWorth(m, p, r);
  }

  /**
    A completed row keeps or raises the value per share exactly when what it leaves behind makes up for the SOL that
    refills the reserve.
   */
  lemma RowRaisesIff(m: Market, p: Pool, r: RowRun)
    requires Sane(m) && Feasible(m, p, r) && 0.0 <= p.positionUsd
    requires r.ending.Completed? && r.burned < p.shares
    ensures var lost, kept := SolWorth(Refill(m, p, r.freed), m.mid), LeftBehind(m, p, r);
            && 0.0 <= kept && (0.0 < r.fee && 0.0 < TotalUsd(m, p) ==> 0.0 < kept)
            && (NavPerShare(m, p) <= NavPerShare(m, Next(m, p, r)) <==> lost <= kept)
            && (NavPerShare(m, p) < NavPerShare(m, Next(m, p, r)) <==> lost < kept)
  {
    hide TotalUsd, NavPerShare, RowNeed, Worth, SolWorth, LeftBehind, NetUsd;
    LeftBehindSign(m, p, r);
    PaidRow(m, p, r);
    NavMoves(m, p, r, Next(m, p, r), SolWorth(Refill(m, p, r.freed), m.mid));
  }

  lemma NavMoves(m: Market, p: Pool, r: RowRun, q: Pool, lost: real)
    requires TotalUsd(m, q) == TotalUsd(m, p) - lost - Worth(RowNeed(m, p, r), m.mid)
    requires q.shares == p.shares - r.burned && 0.0 < p.shares && 0.0 < q.shares
    ensures NavPerShare(m, p) <= NavPerShare(m, q) <==> lost <= LeftBehind(m, p, r)
    ensures NavPerShare(m, p) < NavPerShare(m, q) <==> lost < LeftBehind(m, p, r)
  {
    hide TotalUsd, RowNeed, Worth;
    BurnMovesRatio(TotalUsd(m, p), p.shares, r.burned - r.fee, r.fee, Worth(RowNeed(m, p, r), m.mid), lost);
  }

  lemma FeeWorth(m: Market, p: Pool, r: RowRun)
    requires 0.0 <= r.fee && 0.0 < p.shares && 0.0 <= TotalUsd(m, p)
    ensures 0.0 <= FeeUsd(m, p, r)
    ensures 0.0 < r.fee && 0.0 < TotalUsd(m, p) ==> 0.0 < FeeUsd(m, p, r)
  {
    hide VaultNav;
    Ratio(TotalUsd(m, p), p.shares);
  }

  lemma Ratio(v: real, t: real)
    requires 0.0 <= v && 0.0 < t
    ensures 0.0 <= v / t && (0.0 < v ==> 0.0 < v / t)
  {
  }

  // ----- the whole drain

  /**
    No partial close can refill the reserve: it is there, or the position is worth less than two lamports, half of which
    is never a whole lamport of SOL to ask for.
   */
  predicate NothingToRefill(m: Market, p: Pool) {
    m.reserve <= p.bal.solLamports || p.positionUsd < SolWorth(2, m.mid)
  }

  /** Below the reserve a wallet with BERT asks for no SOL, and one without asks for half its debt in SOL. */
  lemma SolFracBelowReserve(m: Market, p: Pool)
    requires Sane(m) && p.bal.solLamports < m.reserve
    ensures SolFrac(m, p) == if p.bal.bertRaw > 0 then 0.0 else 0.5
    ensures TotalUsd(m, p) == BertWorth(p.bal.bertRaw, m.mid) + p.positionUsd
  {
    FreeWorth(p.bal, m.reserve, m.mid, p.positionUsd);
    assert SolWorth(0, m.mid) == 0.0;
    if p.bal.bertRaw > 0 {
      ScaleStrict(0.0, p.bal.bertRaw as real, m.mid.bertUsd, BERT_UNIT);
    } else {
      assert BertWorth(0, m.mid) == 0.0;
    }
  }

  lemma NeedOf(m: Market, p: Pool, r: RowRun)
    requires Sane(m)
    ensures RowNeed(m, p, r).solLamports == Units(SolPart(NetUsd(m, p, r), SolFrac(m, p)), m.mid.solUsd, SOL_UNIT)
    ensures RowNeed(m, p, r).bertRaw == Units(BertPart(NetUsd(m, p, r), SolFrac(m, p)), m.mid.bertUsd, BERT_UNIT)
  {
    var net := r.burned - r.fee;
    assert NetUsd(m, p, r) == net * NavPerShare(m, p);
    QuoteNeed(NavPerShare(m, p), SolFrac(m, p), m.mid, net, NetUsd(m, p, r));
    hide NetUsd, QuoteAt, VaultNav, ComputeNavPerShare, Units, SolPart, BertPart;
  }

  lemma QuoteNeed(navPerShare: real, solFrac: real, mid: Mid, net: real, owed: real)
    requires mid.solUsd > 0.0 && mid.bertUsd > 0.0 && owed == net * navPerShare
    ensures var q := QuoteAt(navPerShare, solFrac, mid, net);
            && q.Some? && q.value.need.solLamports == Units(SolPart(owed, solFrac), mid.solUsd, SOL_UNIT)
            && q.value.need.bertRaw == Units(BertPart(owed, solFrac), mid.bertUsd, BERT_UNIT)
  {
    hide Units, SolPart, BertPart;
  }

  /** A part buys a whole lamport exactly when it is worth one. */
  lemma BuysALamport(part: real, mid: Mid)
    requires mid.solUsd > 0.0
    ensures Units(part, mid.solUsd, SOL_UNIT) >= 1 <==> part >= SolWorth(1, mid)
  {
    var n := Units(part, mid.solUsd, SOL_UNIT);
    FloorWorth(part, mid.solUsd, SOL_UNIT);
    if n >= 1 {
      ScaleMonotone(1.0, n as real, mid.solUsd, SOL_UNIT);
    } else {
      ScaleMonotone(n as real + 1.0, 1.0, mid.solUsd, SOL_UNIT);
    }
  }

  lemma TwoLamports(mid: Mid)
    ensures SolWorth(2, mid) == 2.0 * SolWorth(1, mid)
  {
  }

  /** Below the reserve, with less than two lamports' worth in the position, no row asks for SOL. */
  lemma AsksForNoSol(m: Market, p: Pool, r: RowRun)
    requires Sane(m) && 0.0 <= r.fee <= r.burned <= p.shares && 0.0 <= p.positionUsd
    requires p.bal.solLamports < m.reserve && p.positionUsd < SolWorth(2, m.mid)
    ensures RowNeed(m, p, r).solLamports <= 0
  {
    SolFracBelowReserve(m, p);
    NavFacts(m, p);
    ClaimWithinTotal(r.burned - r.fee, p.shares, TotalUsd(m, p));
    NeedOf(m, p, r);
    SolWorthSign(1, m.mid);
    TwoLamports(m.mid);
    assert p.bal.bertRaw == 0 ==> BertWorth(0, m.mid) == 0.0;
    hide TotalUsd, NavPerShare, SolFrac, RowNeed, SolWorth, BertWorth, Units;
    BuysALamport(SolPart(NetUsd(m, p, r), SolFrac(m, p)), m.mid);
  }

  lemma NoRefill(m: Market, p: Pool, r: RowRun)
    requires Sane(m) && Feasible(m, p, r) && 0.0 <= p.positionUsd && NothingToRefill(m, p)
    ensures Refill(m, p, r.freed) == 0 && AfterClose(m, p, r.freed).positionUsd <= p.positionUsd
  {
    if p.bal.solLamports < m.reserve {
      AsksForNoSol(m, p, r);
    }
    hide RowNeed;
    SolWorthSign(r.freed.solLamports, m.mid);
    ScaleMonotone(0.0, r.freed.bertRaw as real, m.mid.bertUsd, BERT_UNIT);
  }

  lemma RowKeepsReserve(m: Market, p: Pool, r: RowRun)
    requires Sane(m) && Feasible(m, p, r) && 0.0 <= p.positionUsd && NothingToRefill(m, p)
    ensures var q := Next(m, p, r); 0.0 <= q.positionUsd && NothingToRefill(m, q) && q.shares <= p.shares
  {
    NoRefill(m, p, r);
    hide TotalUsd, NavPerShare, MakeQuote, RowNeed, SolWorth, Worth;
    if !r.ending.Failed? {
      PaidRow(m, p, r);
    }
  }

  lemma CompletedRowKeepsNav(m: Market, p: Pool, r: RowRun)
    requires Sane(m) && Feasible(m, p, r) && 0.0 <= p.positionUsd && NothingToRefill(m, p)
    requires r.ending.Completed? && r.burned < p.shares
    ensures NavPerShare(m, p) <= NavPerShare(m, Next(m, p, r))
    ensures 0.0 < r.fee && 0.0 < TotalUsd(m, p) ==> NavPerShare(m, p) < NavPerShare(m, Next(m, p, r))
  {
    hide TotalUsd, NavPerShare, RowNeed, SolWorth, Worth, LeftBehind, NothingToRefill;
    NoRefill(m, p, r);
    SolWorthSign(0, m.mid);
    RowRaisesIff(m, p, r);
  }

  /** What a row that completes or fails does to the value per share. */
  lemma RowStep(m: Market, p: Pool, r: RowRun)
    requires Sane(m) && Feasible(m, p, r) && 0.0 <= p.positionUsd && NothingToRefill(m, p)
    requires !r.ending.PaidNotBurned?
    ensures var q := Next(m, p, r);
            && 0.0 <= q.positionUsd && NothingToRefill(m, q) && q.shares <= p.shares
            && (0.0 < q.shares ==>
                  && NavPerShare(m, p) <= NavPerShare(m, q)
                  && (r.ending.Completed? && 0.0 < r.fee && 0.0 < TotalUsd(m, p) ==>
                      NavPerShare(m, p) < NavPerShare(m, q)))
  {
    RowKeepsReserve(m, p, r);
    hide TotalUsd, RowNeed, NothingToRefill, SolWorth, Worth;
    if r.ending.Failed? {
      CloseKeepsTotal(m, p, r.freed);
      NoRefill(m, p, r);
      SolWorthSign(0, m.mid);
    } else if 0.0 < p.shares - r.burned {
      CompletedRowKeepsNav(m, p, r);
    }
  }

  /** A worthless pool stays worthless: there a fee alone does not make the value per share rise. */
  lemma WorthlessPoolDoesNotRise(m: Market, p: Pool, r: RowRun)
    requires Sane(m) && Feasible(m, p, r) && 0.0 <= p.positionUsd
    requires r.ending.Completed? && r.burned < p.shares && TotalUsd(m, p) == 0.0
    ensures NavPerShare(m, Next(m, p, r)) == NavPerShare(m, p) == 0.0
  {
    FreeWorth(p.bal, m.reserve, m.mid, p.positionUsd);
    SolWorthSign(2, m.mid);
    RowStep(m, p, r);
    PaidRow(m, p, r);
    SolWorthSign(Refill(m, p, r.freed), m.mid);
    WorthPositive(RowNeed(m, p, r), m.mid);
    hide VaultNav, MakeQuote, Worth, SolWorth;
    assert NavPerShare(m, p) == 0.0;
    assert TotalUsd(m, Next(m, p, r)) <= 0.0;
    RatioOrder(TotalUsd(m, Next(m, p, r)), 0.0, p.shares - r.burned);
  }

  /**
    Over a whole drain of rows that complete or fail, in any mix, the value per share never falls
    while shares remain, and it rises strictly if some completed row left a fee in a pool worth something.
    Any stretch of a drain is such a run, so this orders every two rows of one drain.
   */
  lemma {:induction false} DrainNeverLowersNav(m: Market, p: Pool, rows: seq<RowRun>)
    requires Sane(m) && CleanRun(m, p, rows) && 0.0 <= p.positionUsd && NothingToRefill(m, p)
    requires 0.0 < After(m, p, rows).shares
    ensures 0.0 < p.shares
    ensures NavPerShare(m, p) <= NavPerShare(m, After(m, p, rows))
    ensures 0.0 < TotalUsd(m, p) && LeavesAFee(rows) ==> NavPerShare(m, p) < NavPerShare(m, After(m, p, rows))
    decreases |rows|
  {
    if rows != [] {
      var q := Next(m, p, rows[0]);
      RowStep(m, p, rows[0]);
      DrainNeverLowersNav(m, q, rows[1..]);
      if 0.0 < TotalUsd(m, p) {
        PositiveNav(TotalUsd(m, p), p.shares, TotalUsd(m, q), q.shares);
        if i :| 0 < i < |rows| && rows[i].ending.Completed? && 0.0 < rows[i].fee {
          assert rows[i] == rows[1..][i - 1];
        }
      }
    }
  }

  /** The value per share never falls in any drain of completed and failed rows that leaves shares. */
  ghost predicate DrainsKeepNav(m: Market, p: Pool) {
    forall rows :: CleanRun(m, p, rows) && 0.0 < After(m, p, rows).shares ==>
      NavPerShare(m, p) <= NavPerShare(m, After(m, p, rows))
  }

  ghost predicate LeavesAFee(rows: seq<RowRun>) {
    exists i :: 0 <= i < |rows| && rows[i].ending.Completed? && 0.0 < rows[i].fee
  }

  /** And it rises in each of them that starts with a pool worth something and completes a row with a fee. */
  ghost predicate FeesRaiseNav(m: Market, p: Pool) {
    forall rows ::
      CleanRun(m, p, rows) && 0.0 < After(m, p, rows).shares && 0.0 < TotalUsd(m, p) && LeavesAFee(rows) ==>
        NavPerShare(m, p) < NavPerShare(m, After(m, p, rows))
  }

  /**
    A withdrawal of all shares whose partial close frees one lamport, into the reserve, and which is still short and
    fails.
   */
  function Stranded(p: Pool): RowRun {
    RowRun(p.shares, 0.0, Balances(1, 0), Failed)
  }

  lemma AllShares(v: real, t: real)
    requires 0.0 < t
    ensures t * (v / t) == v
  {
  }

  /** Below the reserve, without BERT, with two lamports' worth in the position: that row lowers the value per share. */
  lemma RefillLowersNav(m: Market, p: Pool)
    requires Sane(m) && 0.0 < p.shares && 0.0 <= p.positionUsd && !NothingToRefill(m, p) && p.bal.bertRaw == 0
    ensures var r := Stranded(p);
            && RowNeed(m, p, r).solLamports > SpendableSol(Plus(p.bal, r.freed), m.reserve)
            && Feasible(m, p, r) && Next(m, p, r).shares == p.shares
            && NavPerShare(m, Next(m, p, r)) < NavPerShare(m, p)
  {
    var r := Stranded(p);
    StrandedIsShort(m, p);
    CloseKeepsTotal(m, p, r.freed);
    SolWorthSign(1, m.mid);
    TwoLamports(m.mid);
    hide RowNeed;
    assert BertWorth(0, m.mid) == 0.0;
    RatioOrder(TotalUsd(m, Next(m, p, r)), TotalUsd(m, p), p.shares);
  }

  lemma StrandedIsShort(m: Market, p: Pool)
    requires Sane(m) && 0.0 < p.shares && 0.0 <= p.positionUsd && !NothingToRefill(m, p) && p.bal.bertRaw == 0
    ensures RowNeed(m, p, Stranded(p)).solLamports >= 1
  {
    SolFracBelowReserve(m, p);
    NeedOf(m, p, Stranded(p));
    assert BertWorth(0, m.mid) == 0.0;
    AllShares(TotalUsd(m, p), p.shares);
    TwoLamports(m.mid);
    assert NetUsd(m, p, Stranded(p)) == TotalUsd(m, p);
    hide TotalUsd, NavPerShare, SolFrac, RowNeed, SolWorth, BertWorth, Units, NetUsd;
    BuysALamport(SolPart(NetUsd(m, p, Stranded(p)), SolFrac(m, p)), m.mid);
  }

  // With BERT in the wallet, a withdrawal of exactly that much goes first.

  function TakesTheBert(m: Market, p: Pool): RowRun
    requires p.shares > 0.0 && TotalUsd(m, p) > 0.0
  {
    RowRun(BertWorth(p.bal.bertRaw, m.mid) / (TotalUsd(m, p) / p.shares), 0.0, Balances(0, 0), Completed)
  }

  lemma ShareOfTotal(part: real, v: real, t: real)
    requires 0.0 <= part < v && 0.0 < t
    ensures 0.0 < v / t && 0.0 <= part / (v / t) < t && part / (v / t) * (v / t) == part
  {
    var n := v / t;
    assert 0.0 < n && n * t == v;
    assert part / n * n == part;
    Quotient(part, v, n, t);
  }

  lemma Quotient(part: real, v: real, n: real, t: real)
    requires 0.0 <= part < v && 0.0 < n && v == n * t
    ensures 0.0 <= part / n < t
  {
    var q := part / n;
    assert q * n == part;
    assert (t - q) * n == v - part;
  }

  lemma BertUnits(raw: nat, mid: Mid)
    requires mid.bertUsd > 0.0 && mid.solUsd > 0.0
    ensures Units(BertWorth(raw, mid), mid.bertUsd, BERT_UNIT) == raw && Units(0.0, mid.solUsd, SOL_UNIT) == 0
  {
    assert BertWorth(raw, mid) / mid.bertUsd == raw as real / BERT_UNIT;
    assert BertWorth(raw, mid) / mid.bertUsd * BERT_UNIT == raw as real;
    assert 0.0 / mid.solUsd * SOL_UNIT == 0.0;
  }

  lemma TakesTheBertNeed(m: Market, p: Pool)
    requires Sane(m) && 0.0 < p.shares && 0.0 < p.positionUsd && p.bal.solLamports < m.reserve && p.bal.bertRaw > 0
    ensures 0.0 < TotalUsd(m, p)
    ensures var r := TakesTheBert(m, p);
            && 0.0 <= r.burned < p.shares && NetUsd(m, p, r) == BertWorth(p.bal.bertRaw, m.mid)
            && RowNeed(m, p, r) == Tokens(0, p.bal.bertRaw)
  {
    hide TotalUsd, SolFrac, Units, RowNeed, Worth;
    TakesTheBertShare(m, p);
    SolFracBelowReserve(m, p);
    var r, worth := TakesTheBert(m, p), BertWorth(p.bal.bertRaw, m.mid);
    NeedOf(m, p, r);
    hide NetUsd, NavPerShare;
    BertUnits(p.bal.bertRaw, m.mid);
    assert SolPart(worth, 0.0) == 0.0 && BertPart(worth, 0.0) == worth;
  }

  lemma TakesTheBertShare(m: Market, p: Pool)
    requires Sane(m) && 0.0 < p.shares && 0.0 < p.positionUsd && p.bal.solLamports < m.reserve && p.bal.bertRaw > 0
    ensures 0.0 < TotalUsd(m, p)
    ensures var r := TakesTheBert(m, p);
            0.0 <= r.burned < p.shares && NetUsd(m, p, r) == BertWorth(p.bal.bertRaw, m.mid)
  {
    hide TotalUsd, SolFrac, BertWorth;
    SolFracBelowReserve(m, p);
    BertWorthSign(p.bal.bertRaw, m.mid);
    ShareOfTotal(BertWorth(p.bal.bertRaw, m.mid), TotalUsd(m, p), p.shares);
  }

  lemma BertWorthSign(raw: nat, mid: Mid)
    requires mid.bertUsd > 0.0
    ensures 0.0 <= BertWorth(raw, mid)
  {
    ScaleMonotone(0.0, raw as real, mid.bertUsd, BERT_UNIT);
  }

  /** It leaves the value per share as it is, and a wallet without BERT. */
  lemma BertGoesFirst(m: Market, p: Pool)
    requires Sane(m) && 0.0 < p.shares && 0.0 < p.positionUsd && p.bal.solLamports < m.reserve && p.bal.bertRaw > 0
    ensures 0.0 < TotalUsd(m, p)
    ensures var r := TakesTheBert(m, p);
            var q := Next(m, p, r);
            && Feasible(m, p, r) && 0.0 < q.shares && q.bal == Balances(p.bal.solLamports, 0)
               && q.positionUsd == p.positionUsd
            && NavPerShare(m, q) == NavPerShare(m, p)
  {
    TakesTheBertNeed(m, p);
    var r := TakesTheBert(m, p);
    assert SolWorth(0, m.mid) == 0.0 && BertWorth(0, m.mid) == 0.0;
    hide TotalUsd, NavPerShare, RowNeed, NetUsd;
    assert Feasible(m, p, r);
    RowRaisesIff(m, p, r);
    assert FeeUsd(m, p, r) == 0.0;
  }

  /** Otherwise some drain lowers the value per share: the BERT is paid out, then a close refills the reserve. */
  lemma SomeDrainLowersNav(m: Market, p: Pool) returns (rows: seq<RowRun>)
    requires Sane(m) && 0.0 < p.shares && 0.0 <= p.positionUsd && !NothingToRefill(m, p)
    ensures CleanRun(m, p, rows) && 0.0 < After(m, p, rows).shares
        && NavPerShare(m, After(m, p, rows)) < NavPerShare(m, p)
  {
    SolWorthSign(2, m.mid);
    hide NavPerShare, Feasible, TotalUsd, RowNeed, SolWorth;
    if p.bal.bertRaw == 0 {
      var r := Stranded(p);
      RefillLowersNav(m, p);
      rows := [r];
      OneRow(m, p, r);
    } else {
      BertGoesFirst(m, p);
      var r := TakesTheBert(m, p);
      var q := Next(m, p, r);
      RefillLowersNav(m, q);
      OneRow(m, q, Stranded(q));
      rows := [r, Stranded(q)];
      assert rows[1..] == [Stranded(q)];
    }
  }

  lemma OneRow(m: Market, p: Pool, r: RowRun)
    requires Feasible(m, p, r) && !r.ending.PaidNotBurned?
    ensures CleanRun(m, p, [r]) && After(m, p, [r]) == Next(m, p, r)
  {
    hide Feasible, Next;
    var q := Next(m, p, r);
    assert [r][1..] == [];
    assert After(m, q, []) == q && CleanRun(m, q, []);
  }

  /**
    In every drain of rows that complete or fail the value per share never falls while shares remain, if and only if the
    wallet holds the reserve or the position is worth less than two lamports; and then fees raise it.
   */
  lemma DrainNeverLowersNavIff(m: Market, p: Pool)
    requires Sane(m) && 0.0 < p.shares && 0.0 <= p.positionUsd
    ensures DrainsKeepNav(m, p) <==> NothingToRefill(m, p)
    ensures NothingToRefill(m, p) ==> FeesRaiseNav(m, p)
  {
    hide NavPerShare, NothingToRefill, TotalUsd;
    if NothingToRefill(m, p) {
      forall rows | CleanRun(m, p, rows) && 0.0 < After(m, p, rows).shares
        ensures NavPerShare(m, p) <= NavPerShare(m, After(m, p, rows))
      {
        DrainNeverLowersNav(m, p, rows);
      }
      forall rows | CleanRun(m, p, rows) && 0.0 < After(m, p, rows).shares && 0.0 < TotalUsd(m, p) && LeavesAFee(rows)
        ensures NavPerShare(m, p) < NavPerShare(m, After(m, p, rows))
      {
        DrainNeverLowersNav(m, p, rows);
      }
    } else {
      var rows := SomeDrainLowersNav(m, p);
    }
  }

  lemma PositiveNav(v: real, t: real, w: real, u: real)
    requires 0.0 < v && 0.0 < t && 0.0 < u && v / t <= w / u
    ensures 0.0 < w
  {
  }

  /**
    The third ending: paid but not burned. The value per share falls exactly when the payout was worth something or
    the partial close refilled the reserve.
   */
  lemma UnburnedPayoutLowersNav(m: Market, p: Pool, r: RowRun)
    requires Sane(m) && Feasible(m, p, r) && 0.0 <= p.positionUsd
    requires r.ending.PaidNotBurned? && 0.0 < p.shares
    ensures NavPerShare(m, Next(m, p, r)) <= NavPerShare(m, p)
    ensures NavPerShare(m, Next(m, p, r)) < NavPerShare(m, p) <==>
              RowNeed(m, p, r) != Tokens(0, 0) || Refill(m, p, r.freed) > 0
  {
    PaidRow(m, p, r);
    SolWorthSign(Refill(m, p, r.freed), m.mid);
    WorthPositive(RowNeed(m, p, r), m.mid);
    RatioOrder(TotalUsd(m, Next(m, p, r)), TotalUsd(m, p), p.shares);
  }

  lemma WorthPositive(need: Tokens, mid: Mid)
    requires mid.solUsd > 0.0 && mid.bertUsd > 0.0 && 0 <= need.solLamports && 0 <= need.bertRaw
    ensures 0.0 <= Worth(need, mid)
    ensures 0.0 < Worth(need, mid) <==> need != Tokens(0, 0)
  {
  }

  lemma RatioOrder(a: real, b: real, t: real)
    requires a <= b && 0.0 < t
    ensures a / t <= b / t
    ensures a / t < b / t <==> a < b
  {
  }
}
