/** Fee splits and auction price rules (packages/shared/src/money.ts and auction.ts). */
module Money {
  import opened Schema

  const BPS_DENOMINATOR := 10_000
  const PLATFORM_FEE_BPS := 500
  const BUYBACK_FEE_BPS := 400
  const FEE_BPS := 100

  datatype SaleSplit = SaleSplit(sellerProceeds: int, buybackFee: int, platformFee: int)

  /** The three-way split of an escrow release: both fees round down, the seller gets the rest. */
  function SplitSale(amount: nat): SaleSplit {
    var buybackFee := amount * BUYBACK_FEE_BPS / BPS_DENOMINATOR;
    var platformFee := amount * FEE_BPS / BPS_DENOMINATOR;
    SaleSplit(amount - buybackFee - platformFee, buybackFee, platformFee)
  }

  /** The two-way split stored on the order when it is created. */
  function SplitAmountFee(amount: nat): int {
    amount * PLATFORM_FEE_BPS / BPS_DENOMINATOR
  }

  /** The release pays out exactly the amount, no part is negative, and the seller never
      gets less than 95 percent. */
  lemma SplitSaleConserves(amount: nat)
    ensures var s := SplitSale(amount);
            && s.sellerProceeds + s.buybackFee + s.platformFee == amount
            && 0 <= s.platformFee <= s.buybackFee
            && 0 <= s.sellerProceeds
            && s.sellerProceeds * 100 >= amount * 95
  {
  }

  /** The rates: four percent for buybacks and one for the operator, five together on the
      order, each rounded down to the micro-unit. */
  lemma FeesAreRoundedDown(amount: nat)
    ensures var s := SplitSale(amount);
            && s.buybackFee == amount * 4 / 100 && s.platformFee == amount / 100
            && 100 * s.buybackFee <= 4 * amount < 100 * (s.buybackFee + 1)
            && 100 * s.platformFee <= amount < 100 * (s.platformFee + 1)
            && 100 * SplitAmountFee(amount) <= 5 * amount < 100 * (SplitAmountFee(amount) + 1)
  {
    assert amount * 400 == 100 * (amount * 4);
  }

  /** The fee stored on an order and the two fee legs its release posts come from different
      roundings. They agree exactly when the two discarded fractions do not add up to a
      whole micro-unit; otherwise the stored fee is one micro-unit too high. */
  lemma StoredFeeAgainstReleasedFees(amount: nat)
    ensures var s := SplitSale(amount);
            var lost := (amount * BUYBACK_FEE_BPS) % BPS_DENOMINATOR + (amount * FEE_BPS) % BPS_DENOMINATOR;
            && (SplitAmountFee(amount) == s.buybackFee + s.platformFee <==> lost < BPS_DENOMINATOR)
            && (lost >= BPS_DENOMINATOR ==> SplitAmountFee(amount) == s.buybackFee + s.platformFee + 1)
  {
    var a := amount * BUYBACK_FEE_BPS;
    var b := amount * FEE_BPS;
    assert a == (a / BPS_DENOMINATOR) * BPS_DENOMINATOR + a % BPS_DENOMINATOR;
    assert b == (b / BPS_DENOMINATOR) * BPS_DENOMINATOR + b % BPS_DENOMINATOR;
    assert amount * PLATFORM_FEE_BPS == a + b;
  }

  /** Such an amount: twenty micro-units store a fee of one and release none. */
  lemma TwentyStoresAFeeItNeverReleases()
    ensures SplitAmountFee(20) == 1 && SplitSale(20) == SaleSplit(20, 0, 0)
  {
  }

  // ---------------------------------------------------------------------------
  // Bidding
  // ---------------------------------------------------------------------------

  const INCREMENT_TIER_50 := 50_000_000
  const INCREMENT_TIER_150 := 150_000_000
  const INCREMENT_AT_50 := 2_000_000
  const INCREMENT_AT_150 := 5_000_000

  /** The step required on top of a positive current bid. */
  function MinIncrement(currentBid: nat, cfg: IncrementConfig): int
  {
    if currentBid >= INCREMENT_TIER_150 then INCREMENT_AT_150
    else if currentBid >= INCREMENT_TIER_50 then INCREMENT_AT_50
    else
      var product := currentBid * cfg.bps;
      // bigint division truncates toward zero
      var pct := if product >= 0 then product / BPS_DENOMINATOR else -(-product / BPS_DENOMINATOR);
      if pct > cfg.floor then pct else cfg.floor
  }

  /** The two fixed tiers, from 50 and from 150 dollars on: two dollars, then five. Below, the
      given percentage rounded toward zero, but at least the floor. */
  lemma Tiers(c: nat, cfg: IncrementConfig)
    ensures c >= 150_000_000 ==> MinIncrement(c, cfg) == 5_000_000
    ensures 50_000_000 <= c < 150_000_000 ==> MinIncrement(c, cfg) == 2_000_000
    ensures c < 50_000_000 && cfg.bps >= 0 ==>
              exists percent: nat ::
                && 10_000 * percent <= c * cfg.bps < 10_000 * (percent + 1)
                && MinIncrement(c, cfg) == if percent > cfg.floor then percent else cfg.floor
    ensures c < 50_000_000 && cfg.bps < 0 ==>
              exists percent: nat ::
                && 10_000 * percent <= c * -cfg.bps < 10_000 * (percent + 1)
                && MinIncrement(c, cfg) == if cfg.floor + percent < 0 then -(percent as int) else cfg.floor
  {
    var product := c * cfg.bps;
    if cfg.bps >= 0 {
      assert product >= 0;
      var percent := product / 10_000;
      assert 10_000 * percent <= c * cfg.bps < 10_000 * (percent + 1);
    } else {
      assert c * -cfg.bps == -product >= 0;
      var percent := -product / 10_000;
      assert 10_000 * percent <= c * -cfg.bps < 10_000 * (percent + 1);
    }
  }

  /** The smallest amount the next bid may have. */
  function MinNextBid(currentBid: Option<int>, startingBid: int, cfg: IncrementConfig): int {
    if currentBid == None || currentBid.value <= 0 then startingBid
    else currentBid.value + MinIncrement(currentBid.value, cfg)
  }

  /** Every step of this configuration is a real raise. */
  predicate StrictSteps(cfg: IncrementConfig) {
    cfg.floor > 0 || cfg.bps >= BPS_DENOMINATOR
  }

  /** The next bid is strictly above the current one, whatever that is, exactly when the
      configuration has a positive floor or asks for at least 100 percent. The default
      (one dollar, 5 percent) does; the auction row does not enforce it. */
  lemma StrictStepsIff(cfg: IncrementConfig)
    ensures (forall c: nat | c > 0 :: MinIncrement(c, cfg) > 0) <==> StrictSteps(cfg)
  {
    if StrictSteps(cfg) {
      forall c: nat | c > 0
        ensures MinIncrement(c, cfg) > 0
      {
        StrictStepsRaise(c, cfg);
      }
    } else {
      assert MinIncrement(1, cfg) <= 0;
    }
  }

  lemma StrictStepsRaise(c: nat, cfg: IncrementConfig)
    requires c > 0 && StrictSteps(cfg)
    ensures MinIncrement(c, cfg) > 0
  {
    if cfg.floor <= 0 {
      assert c * cfg.bps >= 1 * cfg.bps by {
        assert (c - 1) * cfg.bps >= 0;
      }
    }
  }

  /** The smallest amount a bid may have at all. */
  function LowestBid(startingBid: int): nat {
    if startingBid > 1 then startingBid else 1
  }

  /** The step on top of the smallest possible bid of the auction is a real raise. */
  predicate RealRaises(startingBid: int, cfg: IncrementConfig) {
    MinIncrement(LowestBid(startingBid), cfg) > 0
  }

  lemma PercentGrows(b: nat, c: nat, bps: int)
    requires b <= c && bps > 0
    ensures b * bps / BPS_DENOMINATOR <= c * bps / BPS_DENOMINATOR
  {
    assert c * bps >= b * bps by {
      assert (c - b) * bps >= 0;
    }
  }

  /** If the first step is a real raise, every later one is: the tiers are, and the
      percentage only grows. */
  lemma RaisesFrom(b: nat, c: nat, cfg: IncrementConfig)
    requires 0 < b <= c && MinIncrement(b, cfg) > 0
    ensures MinIncrement(c, cfg) > 0
  {
    if cfg.bps > 0 {
      assert b * cfg.bps >= 0 && c * cfg.bps >= 0;
      PercentGrows(b, c, cfg.bps);
    } else {
      assert b * cfg.bps <= 0;
    }
  }

  /** Every step an auction can ask for is a real raise exactly when its first one is: with a
      positive floor, with a starting bid in a fixed tier, or with a percentage of the
      starting bid that does not round down to nothing. */
  lemma RealRaisesIff(startingBid: int, cfg: IncrementConfig)
    ensures RealRaises(startingBid, cfg) <==> forall c: nat | c >= LowestBid(startingBid) :: MinIncrement(c, cfg) > 0
    ensures RealRaises(startingBid, cfg) <==>
            cfg.floor > 0 || LowestBid(startingBid) >= INCREMENT_TIER_50
              || LowestBid(startingBid) * cfg.bps >= BPS_DENOMINATOR
  {
    var b := LowestBid(startingBid);
    if RealRaises(startingBid, cfg) {
      forall c: nat | c >= b
        ensures MinIncrement(c, cfg) > 0
      {
        RaisesFrom(b, c, cfg);
      }
    }
  }

  const ANTISNIPE_WINDOW_MS := 5000
  const ANTISNIPE_URGENT_MS := 3000
  const ANTISNIPE_BUMP_MS := 1000
  const ANTISNIPE_URGENT_BUMP_MS := 2000
  const ANTISNIPE_MAX_MS := 5000

  /** The live-room anti-snipe rule: the remaining time after a bid. */
  function AntiSnipeRemaining(remainingMs: int): int {
    if remainingMs > ANTISNIPE_WINDOW_MS then remainingMs
    else
      var bump := if remainingMs < ANTISNIPE_URGENT_MS then ANTISNIPE_URGENT_BUMP_MS else ANTISNIPE_BUMP_MS;
      if remainingMs + bump < ANTISNIPE_MAX_MS then remainingMs + bump else ANTISNIPE_MAX_MS
  }
}
