/** The SOL/USD price and its use (packages/backend/src/prices.ts). Prices are micro-USD for
    one SOL; what a price source answers is a parameter, `None` when it is down. */
module Prices {
  import opened Schema

  const PRICE_MAX_AGE_S := 90
  const DIVERGENCE_LIMIT_BPS := 200
  const CACHE_TTL_MS := 10_000
  const LAMPORTS_PER_SOL := 1_000_000_000
  const BPS := 10_000

  datatype Source = Both | PythOnly | CoinbaseOnly

  datatype SolPrice = SolPrice(usdMicro: nat, source: Source, at: int)

  datatype PythQuote = PythQuote(price: int, expo: int, publishTime: int)

  function Power10(k: nat): (r: nat)
    ensures r > 0
  {
    if k == 0 then 1 else 10 * Power10(k - 1)
  }

  /** Division that truncates toward zero. */
  function TruncDiv(x: int, y: nat): int
    requires y > 0
  {
    if x >= 0 then x / y else -(-x / y)
  }

  function PythToMicro(price: int, expo: int): int {
    var e := expo + 6;
    if e >= 0 then price * Power10(e) else TruncDiv(price, Power10(-e))
  }

  /** The exponent shifts the price: micro-dollars are what is left of it six digits further,
      truncated toward zero. */
  lemma PythScale(price: int, expo: int)
    ensures expo >= -6 ==> PythToMicro(price, expo) == price * Power10(expo + 6)
    ensures expo < -6 && price >= 0 ==>
              var (m, unit) := (PythToMicro(price, expo), Power10(-6 - expo)); m * unit <= price < (m + 1) * unit
    ensures expo < -6 && price < 0 ==>
              var (m, unit) := (-PythToMicro(price, expo), Power10(-6 - expo)); m * unit <= -price < (m + 1) * unit
    ensures PythToMicro(15_000_000_000, -8) == 150_000_000
  {
    assert Power10(2) == 100 by {
      assert Power10(0) == 1 && Power10(1) == 10;
    }
  }

  /** A quote older than ninety seconds, or not positive, counts as no answer. */
  function FromPyth(quote: Option<PythQuote>, nowS: int): (r: Option<int>)
    ensures r.Some? <==>
            quote.Some? && nowS - quote.value.publishTime <= 90 && PythToMicro(quote.value.price, quote.value.expo) > 0
    ensures r.Some? ==> r.value == PythToMicro(quote.value.price, quote.value.expo)
  {
    if quote == None then None
    else if nowS - quote.value.publishTime > PRICE_MAX_AGE_S then None
    else
      var micro := PythToMicro(quote.value.price, quote.value.expo);
      if micro <= 0 then None else Some(micro)
  }

  function FromCoinbase(micro: Option<int>): (r: Option<int>)
    ensures r.Some? <==> micro.Some? && micro.value > 0
    ensures r.Some? ==> r == micro
  {
    if micro.Some? && micro.value <= 0 then None else micro
  }

  /** The spread setting, clamped to ten percent; one and a half if there is none. */
  function SpreadBps(raw: Option<int>): (r: nat)
    ensures r <= 1000
    ensures raw.Some? && 0 <= raw.value <= 1000 ==> r == raw.value
    ensures raw.Some? && raw.value < 0 ==> r == 0
    ensures raw.Some? && raw.value > 1000 ==> r == 1000
    ensures raw == None ==> r == 150
  {
    if raw == None then 150
    else if raw.value < 0 then 0
    else if raw.value > 1000 then 1000
    else raw.value
  }

  /** The sources agree to within the limit, measured against the higher one. */
  predicate Agree(a: int, b: int) {
    var max := if a > b then a else b;
    var diff := if a > b then a - b else b - a;
    diff * BPS <= DIVERGENCE_LIMIT_BPS * max
  }

  class PriceOracle {
    var cached: Option<SolPrice>

    constructor ()
      ensures cached == None
    {
      cached := None;
    }

    method ClearPriceCache()
      modifies this
      ensures cached == None
    {
      cached := None;
    }

    /** A price, or none that can be trusted. A fresh cache entry is served as it is; two
        answers must agree; one alone is taken; a refusal leaves the cache alone. */
    method GetSolUsdPrice(now: int, pyth: Option<PythQuote>, coinbase: Option<int>) returns (r: Option<SolPrice>)
      modifies this
      ensures old(cached.Some? && now - cached.value.at < 10_000) ==> r == old(cached)
      ensures !old(cached.Some? && now - cached.value.at < 10_000) ==>
                r == match (FromPyth(pyth, now / 1000), FromCoinbase(coinbase))
                     case (Some(a), Some(b)) => if Agree(a, b) then Some(SolPrice(a, Both, now)) else None
                     case (Some(a), None) => Some(SolPrice(a, PythOnly, now))
                     case (None, Some(b)) => Some(SolPrice(b, CoinbaseOnly, now))
                     case (None, None) => None
      ensures cached == if r.Some? then r else old(cached)
    {
      if cached.Some? && now - cached.value.at < CACHE_TTL_MS {
        return cached;
      }
      var a, b := FromPyth(pyth, now / 1000), FromCoinbase(coinbase);
      if a.Some? && b.Some? {
        if !Agree(a.value, b.value) {
          return None;
        }
        r := Some(SolPrice(a.value, Both, now));
      } else if a.Some? {
        r := Some(SolPrice(a.value, PythOnly, now));
      } else if b.Some? {
        r := Some(SolPrice(b.value, CoinbaseOnly, now));
      } else {
        return None;
      }
      cached := r;
    }
  }

  /** Agreement does not depend on the order of the sources, and bounds the error both ways:
      neither answer is more than two percent below the other. */
  lemma AgreementBounds(a: int, b: int)
    requires a > 0 && b > 0
    ensures Agree(a, b) <==> Agree(b, a)
    ensures Agree(a, b) <==> 100 * a >= 98 * b && 100 * b >= 98 * a
  {
  }

  // ---------------------------------------------------------------------------
  // Conversion
  // ---------------------------------------------------------------------------

  /** Lamports in USDC micro-units, less the spread; rounded in the operator's favor. */
  function LamportsToUsdcMicros(lamports: int, usdMicro: nat, spreadBps: nat): int
    requires spreadBps <= BPS
  {
    if lamports <= 0 then 0 else lamports * usdMicro * (BPS - spreadBps) / (LAMPORTS_PER_SOL * BPS)
  }

  /** Lamports at a micro-dollar price for a billion of them, less the spread of so many
      hundredths of a percent, rounded down; nothing for nothing. */
  lemma ConversionRate(lamports: int, usdMicro: nat, spreadBps: nat)
    requires spreadBps <= 10_000
    ensures lamports <= 0 ==> LamportsToUsdcMicros(lamports, usdMicro, spreadBps) == 0
    ensures lamports > 0 ==>
              var micros := LamportsToUsdcMicros(lamports, usdMicro, spreadBps);
              micros * 10_000_000_000_000 <= lamports * usdMicro * (10_000 - spreadBps) < (micros + 1) * 10_000_000_000_000
    ensures LamportsToUsdcMicros(1_000_000_000, 150_000_000, 150) == 147_750_000
  {
  }

  lemma DivAdds(x: nat, y: nat, d: nat)
    requires d > 0
    ensures x / d + y / d <= (x + y) / d
  {
    var q, r := x / d, x % d;
    var q', r' := y / d, y % d;
    assert x + y == (q + q') * d + (r + r');
    DivAtLeast(x + y, q + q', d);
  }

  lemma DivAtLeast(x: nat, q: nat, d: nat)
    requires d > 0 && x >= q * d
    ensures x / d >= q
  {
    var k := x / d;
    assert x == k * d + x % d;
    assert (k + 1 - q) * d > 0;
  }

  lemma DivGrows(x: nat, y: nat, d: nat)
    requires d > 0 && x <= y
    ensures x / d <= y / d
  {
    assert y >= (x / d) * d;
    DivAtLeast(y, x / d, d);
  }

  /** Two deposits credited apart, each less its own spread, never get more than the
      spread-free value of both together. */
  lemma CreditsWithinValuation(x: int, y: int, price: nat, spread: nat)
    requires spread <= BPS && y >= 0
    ensures 0 <= LamportsToUsdcMicros(x, price, spread)
    ensures LamportsToUsdcMicros(x, price, spread) + LamportsToUsdcMicros(y, price, 0)
            <= LamportsToUsdcMicros((if x > 0 then x else 0) + y, price, 0)
  {
    var d := LAMPORTS_PER_SOL * BPS;
    if x > 0 {
      var v := x * price;
      assert v >= 0;
      assert 0 <= v * (BPS - spread) <= v * BPS by {
        assert v * BPS - v * (BPS - spread) == v * spread;
      }
      DivGrows(v * (BPS - spread), v * BPS, d);
      var u := y * price;
      assert u >= 0;
      DivAdds(v * BPS, u * BPS, d);
      assert v * BPS + u * BPS == (x + y) * price * BPS;
    }
  }
}
