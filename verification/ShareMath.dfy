/**
  Share and token arithmetic of the depositor vault (src/vault/shareMath.ts and
  src/vault/navSnapshot.ts), with the bounds the payout protocol relies on.
  USD amounts, prices and shares are exact reals; lamports and raw BERT are integers.
 */
module ShareMath {
  import opened Prelude

  /** 10 ** SOL_DECIMALS and 10 ** BERT_DECIMALS. */
  const SOL_UNIT := 1000000000.0
  const BERT_UNIT := 1000000.0

  datatype Mid = Mid(solUsd: real, bertUsd: real)
  datatype Balances = Balances(solLamports: nat, bertRaw: nat)
  datatype Tokens = Tokens(solLamports: int, bertRaw: int)
  datatype Nav = Nav(totalUsd: real, freeUsd: real, positionUsd: real, feesUsd: real, solFrac: real)

  /** What processOne computes for one row before it looks at liquidity. */
  datatype Quote = Quote(navPerShare: real, usdOwed: real, need: Tokens)

  // ----- the source's functions

  function ComputeNavPerShare(totalUsd: real, totalShares: real): real {
    if totalShares <= 0.0 then 1.0 else totalUsd / totalShares
  }

  /** None is the thrown error for a non-positive NAV per share. */
  function ComputeSharesForDeposit(depositUsd: real, navPerShare: real): Option<real> {
    if navPerShare <= 0.0 then None else Some(depositUsd / navPerShare)
  }

  /** The fee part of the burned shares; the rest is the net part. */
  function FeeShares(sharesBurned: real, feeBps: real): real {
    sharesBurned * (feeBps / 10000.0)
  }

  /** None is the thrown error for a non-positive price. */
  function SplitUsdIntoTokens(usd: real, solFrac: real, mid: Mid): Option<Tokens> {
    if mid.solUsd <= 0.0 || mid.bertUsd <= 0.0 then
      None
    else
      Some(Tokens(Units(SolPart(usd, solFrac), mid.solUsd, SOL_UNIT),
                  Units(BertPart(usd, solFrac), mid.bertUsd, BERT_UNIT)))
  }

  function SolPart(usd: real, solFrac: real): real {
    usd * solFrac
  }

  function BertPart(usd: real, solFrac: real): real {
    usd * (1.0 - solFrac)
  }

  /** Whole token units a USD part buys. */
  function Units(part: real, price: real, unit: real): int
    requires price > 0.0
  {
    (part / price * unit).Floor
  }

  function ComputeNav(free: Balances, positionUsd: real, fees: Balances, mid: Mid): Nav {
    var freeSolUsd := free.solLamports as real / SOL_UNIT * mid.solUsd;
    var freeUsd := freeSolUsd + free.bertRaw as real / BERT_UNIT * mid.bertUsd;
    var feesUsd := fees.bertRaw as real / BERT_UNIT * mid.bertUsd + fees.solLamports as real / SOL_UNIT * mid.solUsd;
    Nav(freeUsd + positionUsd + feesUsd, freeUsd, positionUsd, feesUsd,
        if freeUsd > 0.0 then freeSolUsd / freeUsd else 0.5)
  }

  /** SOL above the reserve; the reserve itself is never spent on users. */
  function SpendableSol(bal: Balances, reserve: nat): nat {
    if bal.solLamports > reserve then bal.solLamports - reserve else 0
  }

  function Spendable(bal: Balances, reserve: nat): Balances {
    Balances(SpendableSol(bal, reserve), bal.bertRaw)
  }

  function VaultNav(mid: Mid, bal: Balances, reserve: nat, positionUsd: real): Nav {
    ComputeNav(Spendable(bal, reserve), positionUsd, Balances(0, 0), mid)
  }

  /** The arithmetic of one row of a drain; None when the token split throws. */
  function MakeQuote(mid: Mid, bal: Balances, reserve: nat, positionUsd: real,
                     totalShares: real, netShares: real): Option<Quote>
  {
    var nav := VaultNav(mid, bal, reserve, positionUsd);
    QuoteAt(ComputeNavPerShare(nav.totalUsd, totalShares), nav.solFrac, mid, netShares)
  }

  function QuoteAt(navPerShare: real, solFrac: real, mid: Mid, netShares: real): Option<Quote> {
    var usdOwed := netShares * navPerShare;
    match SplitUsdIntoTokens(usdOwed, solFrac, mid)
    case None => None
    case Some(need) => Some(Quote(navPerShare, usdOwed, need))
  }

  predicate Covers(bal: Balances, reserve: nat, need: Tokens) {
    need.solLamports <= SpendableSol(bal, reserve) && need.bertRaw <= bal.bertRaw
  }

  /** What a drain asks partialClose for: the part of the need the wallet lacks. */
  function Shortfall(bal: Balances, reserve: nat, need: Tokens): Tokens {
    Tokens(Max(0, need.solLamports - SpendableSol(bal, reserve)), Max(0, need.bertRaw - bal.bertRaw))
  }

  /**
    If the close frees exactly what it is asked for, the wallet covers the need afterwards if and only if it held the
    reserve or was not short of SOL: below the reserve the freed SOL refills the reserve first.
   */
  lemma ShortfallCoversIff(bal: Balances, reserve: nat, need: Tokens)
    ensures var asked := Shortfall(bal, reserve, need);
            var after := Balances(bal.solLamports + asked.solLamports, bal.bertRaw + asked.bertRaw);
            && (Covers(after, reserve, need) <==> reserve <= bal.solLamports || need.solLamports <= 0)
            && (asked == Tokens(0, 0) <==> Covers(bal, reserve, need))
  {
  }

  /** Less than what it is asked for never suffices. */
  lemma ShortfallIsNeeded(bal: Balances, reserve: nat, need: Tokens, freed: Balances)
    requires freed.solLamports < Shortfall(bal, reserve, need).solLamports
             || freed.bertRaw < Shortfall(bal, reserve, need).bertRaw
    ensures !Covers(Balances(bal.solLamports + freed.solLamports, bal.bertRaw + freed.bertRaw), reserve, need)
  {
  }

  // ----- what the amounts are worth

  function SolWorth(lamports: int, mid: Mid): real {
    lamports as real * mid.solUsd / SOL_UNIT
  }

  function BertWorth(raw: int, mid: Mid): real {
    raw as real * mid.bertUsd / BERT_UNIT
  }

  function Worth(t: Tokens, mid: Mid): real {
    SolWorth(t.solLamports, mid) + BertWorth(t.bertRaw, mid)
  }

  /** One lamport plus one raw BERT unit. */
  function DustUsd(mid: Mid): real {
    SolWorth(1, mid) + BertWorth(1, mid)
  }

  /** A payout never exceeds what is owed and misses it by less than one unit of each token. */
  ghost predicate PaysWithinDust(need: Tokens, usdOwed: real, mid: Mid) {
    usdOwed - DustUsd(mid) < Worth(need, mid) <= usdOwed
  }

  /** Flooring a USD part into integer units loses less than one unit. */
  lemma FloorWorth(part: real, price: real, unit: real)
    requires price > 0.0 && unit > 0.0
    ensures var n := Units(part, price, unit) as real;
            n * price / unit <= part < (n + 1.0) * price / unit
  {
    var x := part / price * unit;
    var n := Units(part, price, unit) as real;
    Unscale(part, price, unit);
    assert n <= x < n + 1.0;
    ScaleMonotone(n, x, price, unit);
    ScaleStrict(x, n + 1.0, price, unit);
  }

  lemma Unscale(part: real, price: real, unit: real)
    requires price > 0.0 && unit > 0.0
    ensures part / price * unit * price / unit == part
  {
  }

  lemma ScaleMonotone(a: real, b: real, price: real, unit: real)
    requires a <= b && price >= 0.0 && unit > 0.0
    ensures a * price / unit <= b * price / unit
  {
  }

  lemma ScaleStrict(a: real, b: real, price: real, unit: real)
    requires a < b && price > 0.0 && unit > 0.0
    ensures a * price / unit < b * price / unit
  {
  }

  lemma SplitPaysWithinDust(usd: real, solFrac: real, mid: Mid)
    ensures SplitUsdIntoTokens(usd, solFrac, mid).Some? <==> mid.solUsd > 0.0 && mid.bertUsd > 0.0
    ensures SplitUsdIntoTokens(usd, solFrac, mid).Some? ==>
        PaysWithinDust(SplitUsdIntoTokens(usd, solFrac, mid).value, usd, mid)
  {
    if mid.solUsd > 0.0 && mid.bertUsd > 0.0 {
      var solPart, bertPart := SolPart(usd, solFrac), BertPart(usd, solFrac);
      FloorWorth(solPart, mid.solUsd, SOL_UNIT);
      FloorWorth(bertPart, mid.bertUsd, BERT_UNIT);
      assert solPart + bertPart == usd;
      var t := SplitUsdIntoTokens(usd, solFrac, mid).value;
      assert (t.solLamports as real + 1.0) * mid.solUsd / SOL_UNIT == SolWorth(t.solLamports, mid) + SolWorth(1, mid);
      assert (t.bertRaw as real + 1.0) * mid.bertUsd / BERT_UNIT == BertWorth(t.bertRaw, mid) + BertWorth(1, mid);
    }
  }

  lemma QuoteAtPaysWithinDust(navPerShare: real, solFrac: real, mid: Mid, netShares: real)
    ensures var q := QuoteAt(navPerShare, solFrac, mid, netShares);
            && (q.Some? <==> mid.solUsd > 0.0 && mid.bertUsd > 0.0)
            && (q.Some? ==> PaysWithinDust(q.value.need, q.value.usdOwed, mid))
  {
    SplitPaysWithinDust(netShares * navPerShare, solFrac, mid);
  }

  /** Every quote pays within dust of what it owes, whatever the balances, position and share counts. */
  lemma QuotePaysWithinDust(mid: Mid, bal: Balances, reserve: nat, positionUsd: real, totalShares: real,
                            netShares: real)
    ensures var q := MakeQuote(mid, bal, reserve, positionUsd, totalShares, netShares);
            && (q.Some? <==> mid.solUsd > 0.0 && mid.bertUsd > 0.0)
            && (q.Some? ==> PaysWithinDust(q.value.need, q.value.usdOwed, mid))
  {
    var nav := VaultNav(mid, bal, reserve, positionUsd);
    QuoteAtPaysWithinDust(ComputeNavPerShare(nav.totalUsd, totalShares), nav.solFrac, mid, netShares);
  }

  // ----- liquidity: what a drain may ask of the position

  /** The claim of at most all the shares is worth at most all the value. */
  lemma ClaimWithinTotal(net: real, totalShares: real, totalUsd: real)
    requires 0.0 <= net <= totalShares && 0.0 <= totalUsd
    ensures 0.0 <= net * ComputeNavPerShare(totalUsd, totalShares) <= totalUsd
  {
    if totalShares > 0.0 {
      var nav := totalUsd / totalShares;
      assert nav >= 0.0;
      assert totalShares * nav == totalUsd;
      assert 0.0 <= net * nav <= totalShares * nav;
    }
  }

  lemma FreeWorth(bal: Balances, reserve: nat, mid: Mid, positionUsd: real)
    requires mid.solUsd > 0.0 && mid.bertUsd > 0.0
    ensures var nav := VaultNav(mid, bal, reserve, positionUsd);
            var sol, bert := SolWorth(SpendableSol(bal, reserve), mid), BertWorth(bal.bertRaw, mid);
            && sol >= 0.0 && bert >= 0.0
            && nav.freeUsd == sol + bert && nav.totalUsd == sol + bert + positionUsd
            && sol == nav.freeUsd * nav.solFrac && bert == nav.freeUsd * (1.0 - nav.solFrac)
            && 0.0 <= nav.solFrac <= 1.0
  {
    var nav := VaultNav(mid, bal, reserve, positionUsd);
    var sol, bert := SolWorth(SpendableSol(bal, reserve), mid), BertWorth(bal.bertRaw, mid);
    assert sol == SpendableSol(bal, reserve) as real / SOL_UNIT * mid.solUsd;
    assert bert == bal.bertRaw as real / BERT_UNIT * mid.bertUsd;
    assert nav.freeUsd == sol + bert;
    if nav.freeUsd > 0.0 {
      assert nav.solFrac == sol / nav.freeUsd;
      Fraction(sol, nav.freeUsd);
    }
  }

  lemma Fraction(a: real, b: real)
    requires 0.0 <= a <= b && 0.0 < b
    ensures 0.0 <= a / b <= 1.0 && b * (a / b) == a && b * (1.0 - a / b) == b - a
  {
  }

  /** With no LP position, a claim within the total is always covered by the wallet. */
  lemma NoShortfallWithoutPosition(mid: Mid, bal: Balances, reserve: nat, totalShares: real, netShares: real)
    requires mid.solUsd > 0.0 && mid.bertUsd > 0.0
    requires 0.0 <= netShares <= totalShares
    ensures Covers(bal, reserve, MakeQuote(mid, bal, reserve, 0.0, totalShares, netShares).value.need)
  {
    var nav := VaultNav(mid, bal, reserve, 0.0);
    FreeWorth(bal, reserve, mid, 0.0);
    ClaimWithinTotal(netShares, totalShares, nav.totalUsd);
    SplitWithinFree(netShares * ComputeNavPerShare(nav.totalUsd, totalShares), nav.solFrac, mid, nav.freeUsd,
                    SpendableSol(bal, reserve), bal.bertRaw);
  }

  lemma SplitWithinFree(usd: real, solFrac: real, mid: Mid, freeUsd: real, sol: nat, bert: nat)
    requires mid.solUsd > 0.0 && mid.bertUsd > 0.0 && 0.0 <= solFrac <= 1.0
    requires SolWorth(sol, mid) == freeUsd * solFrac && BertWorth(bert, mid) == freeUsd * (1.0 - solFrac)
    requires usd <= freeUsd
    ensures var need := SplitUsdIntoTokens(usd, solFrac, mid).value;
            need.solLamports <= sol && need.bertRaw <= bert
  {
    SolSideCovered(usd, solFrac, mid, freeUsd, sol);
    BertSideCovered(usd, solFrac, mid, freeUsd, bert);
  }

  lemma SolSideCovered(usd: real, solFrac: real, mid: Mid, freeUsd: real, sol: nat)
    requires mid.solUsd > 0.0 && mid.bertUsd > 0.0 && 0.0 <= solFrac && usd <= freeUsd
    requires SolWorth(sol, mid) == freeUsd * solFrac
    ensures SplitUsdIntoTokens(usd, solFrac, mid).value.solLamports <= sol
  {
  }

  lemma BertSideCovered(usd: real, solFrac: real, mid: Mid, freeUsd: real, bert: nat)
    requires mid.solUsd > 0.0 && mid.bertUsd > 0.0 && solFrac <= 1.0 && usd <= freeUsd
    requires BertWorth(bert, mid) == freeUsd * (1.0 - solFrac)
    ensures SplitUsdIntoTokens(usd, solFrac, mid).value.bertRaw <= bert
  {
    ShareOf(usd, freeUsd, 1.0 - solFrac);
    SideCovered(BertPart(usd, solFrac), BertPart(freeUsd, solFrac), mid.bertUsd, BERT_UNIT, bert);
  }

  lemma SideCovered(part: real, freePart: real, price: real, unit: real, have: nat)
    requires price > 0.0 && unit > 0.0 && part <= freePart
    requires have as real * price / unit == freePart
    ensures Units(part, price, unit) <= have
  {
  }

  lemma ShareOf(a: real, b: real, f: real)
    requires a <= b && f >= 0.0
    ensures a * f <= b * f
  {
  }

  /** What a drain asks partialClose for is worth at most the position. */
  lemma ShortfallWithinPosition(mid: Mid, bal: Balances, reserve: nat, positionUsd: real, totalShares: real,
                                netShares: real)
    requires mid.solUsd > 0.0 && mid.bertUsd > 0.0
    requires 0.0 <= netShares <= totalShares && 0.0 <= positionUsd
    ensures var need := MakeQuote(mid, bal, reserve, positionUsd, totalShares, netShares).value.need;
            Worth(Shortfall(bal, reserve, need), mid) <= positionUsd
  {
    var nav := VaultNav(mid, bal, reserve, positionUsd);
    FreeWorth(bal, reserve, mid, positionUsd);
    ClaimWithinTotal(netShares, totalShares, nav.totalUsd);
    SplitShortWithin(netShares * ComputeNavPerShare(nav.totalUsd, totalShares), nav.solFrac, mid, nav.freeUsd,
                     positionUsd,
                     SpendableSol(bal, reserve), bal.bertRaw);
  }

  lemma SplitShortWithin(usd: real, solFrac: real, mid: Mid, freeUsd: real, positionUsd: real, sol: nat, bert: nat)
    requires mid.solUsd > 0.0 && mid.bertUsd > 0.0 && 0.0 <= solFrac <= 1.0 && 0.0 <= positionUsd
    requires SolWorth(sol, mid) == freeUsd * solFrac && BertWorth(bert, mid) == freeUsd * (1.0 - solFrac)
    requires usd <= freeUsd + positionUsd
    ensures var need := SplitUsdIntoTokens(usd, solFrac, mid).value;
            SolWorth(Max(0, need.solLamports - sol), mid) + BertWorth(Max(0, need.bertRaw - bert), mid) <= positionUsd
  {
    SolSideShort(usd, solFrac, mid, freeUsd, sol);
    BertSideShort(usd, solFrac, mid, freeUsd, bert);
    Partition(Gap(usd, freeUsd), solFrac);
  }

  /** The part of a debt the free value does not cover. */
  function Gap(owed: real, free: real): real {
    if owed > free then owed - free else 0.0
  }

  lemma SolSideShort(usd: real, solFrac: real, mid: Mid, freeUsd: real, sol: nat)
    requires mid.solUsd > 0.0 && mid.bertUsd > 0.0 && 0.0 <= solFrac
    requires SolWorth(sol, mid) == freeUsd * solFrac
    ensures SolWorth(Max(0, SplitUsdIntoTokens(usd, solFrac, mid).value.solLamports - sol), mid) <= Gap(usd,
        freeUsd) * solFrac
  {
  }

  lemma BertSideShort(usd: real, solFrac: real, mid: Mid, freeUsd: real, bert: nat)
    requires mid.solUsd > 0.0 && mid.bertUsd > 0.0 && solFrac <= 1.0
    requires BertWorth(bert, mid) == freeUsd * (1.0 - solFrac)
    ensures BertWorth(Max(0, SplitUsdIntoTokens(usd, solFrac, mid).value.bertRaw - bert), mid) <= Gap(usd,
        freeUsd) * (1.0 - solFrac)
  {
  }

  lemma Partition(g: real, f: real)
    ensures g * f + g * (1.0 - f) == g
  {
  }

  /**
    What the withdraw handler queues for an amount in USD (src/vault/commands.ts:843-844): shares worth the amount, of
    which the fee is the configured share, so that the net shares are worth the amount less the fee's share of it.
   */
  lemma WithdrawalShares(amountUsd: real, navPerShare: real, feeBps: real)
    requires 0.0 < navPerShare
    ensures var burned := amountUsd / navPerShare;
            var fee := FeeShares(burned, feeBps);
            && burned * navPerShare == amountUsd && 10000.0 * fee == feeBps * burned
            && 10000.0 * ((burned - fee) * navPerShare) == (10000.0 - feeBps) * amountUsd
  {
    var burned := amountUsd / navPerShare;
    var fee := FeeShares(burned, feeBps);
    assert burned * navPerShare == amountUsd;
    assert 10000.0 * fee == feeBps * burned;
    NetOfFee(burned, fee, feeBps, navPerShare, amountUsd);
  }

  lemma NetOfFee(burned: real, fee: real, feeBps: real, nav: real, amount: real)
    requires burned * nav == amount && 10000.0 * fee == feeBps * burned
    ensures 10000.0 * ((burned - fee) * nav) == (10000.0 - feeBps) * amount
  {
    assert 10000.0 * (fee * nav) == feeBps * burned * nav;
    assert feeBps * burned * nav == feeBps * amount;
    assert (burned - fee) * nav == burned * nav - fee * nav;
  }

  /** The fee taken at the configured rate (0..10000 bps) stays between zero and the burned shares. */
  lemma FeeWithinBurned(sharesBurned: real, feeBps: real)
    requires 0.0 <= sharesBurned && 0.0 <= feeBps <= 10000.0
    ensures 0.0 <= FeeShares(sharesBurned, feeBps) <= sharesBurned
  {
    var f := feeBps / 10000.0;
    assert 0.0 <= f <= 1.0;
    ShareOf(0.0, f, sharesBurned);
    ShareOf(f, 1.0, sharesBurned);
    assert sharesBurned * f <= sharesBurned;
    assert FeeShares(sharesBurned, feeBps) == sharesBurned * f;
  }
}
