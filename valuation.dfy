/**
 * The fair value of the ES future from the scraped inputs, and the two-way
 * trading advice. Floating-point exponentiation and rounding to two decimals
 * are parameters (`pow`, `round2`); every relation between the quantities is
 * stated over `real`.
 */
module Valuation {
  import opened Wrappers
  import opened Extraction

  /** Cost of carrying the index to expiry: spx * ((1 + rate) ** (days / 365) - 1). */
  function InterestComponent(pow: (real, real) -> real, m: MarketInputs): real {
    m.spxPrice * (pow(1.0 + m.interestRate, m.daysToExpiry as real / 365.0) - 1.0)
  }

  /** The fair basis: carry cost less the expected dividends, unrounded. */
  function FairValue(pow: (real, real) -> real, m: MarketInputs): real {
    InterestComponent(pow, m) - m.expectedDividends
  }

  /** The fair futures price: the index plus the fair basis, unrounded. */
  function FairEsPrice(pow: (real, real) -> real, m: MarketInputs): real {
    m.spxPrice + FairValue(pow, m)
  }

  datatype Advice = ShortEs | BuyEs

  /** "做空 ES" (short ES) and "買入 ES" (buy ES). */
  function AdviceText(a: Advice): string {
    match a
    case ShortEs => "\U{505A}\U{7A7A} ES"
    case BuyEs => "\U{8CB7}\U{5165} ES"
  }

  /** Short the future when it trades above its fair price, buy it otherwise. */
  function AdviceFor(esPrice: real, fairEsPrice: real): Advice {
    if esPrice > fairEsPrice then ShortEs else BuyEs
  }

  /** The two messages differ, so the message tells which way the comparison went. */
  lemma AdviceTextInjective(a: Advice, b: Advice)
    ensures AdviceText(a) == AdviceText(b) <==> a == b
  {
    if a != b {
      assert AdviceText(a)[0] != AdviceText(b)[0];
    }
  }

  /** The rule is a threshold: once a price is high enough to short, every
      higher price is too, and at the fair price itself the advice is to buy. */
  lemma AdviceThreshold(es1: real, es2: real, fair: real)
    requires es1 <= es2
    ensures AdviceFor(es1, fair) == ShortEs ==> AdviceFor(es2, fair) == ShortEs
    ensures AdviceFor(es2, fair) == BuyEs ==> AdviceFor(es1, fair) == BuyEs
    ensures AdviceFor(fair, fair) == BuyEs
  {
  }

  /** On expiry day there is no carry, so the fair basis is minus the dividends
      (assuming only that `pow(x, 0.0)` is 1). */
  lemma ExpiryDayFairValue(pow: (real, real) -> real, m: MarketInputs)
    requires m.daysToExpiry == 0 && pow(1.0 + m.interestRate, 0.0) == 1.0
    ensures FairValue(pow, m) == -m.expectedDividends
    ensures FairEsPrice(pow, m) == m.spxPrice - m.expectedDividends
  {
  }

  /** Without interest and dividends the future is fairly priced at the index
      (assuming only that `pow(1.0, e)` is 1). */
  lemma NoCarryNoDividends(pow: (real, real) -> real, m: MarketInputs)
    requires m.interestRate == 0.0 && m.expectedDividends == 0.0
    requires pow(1.0, m.daysToExpiry as real / 365.0) == 1.0
    ensures FairValue(pow, m) == 0.0
    ensures FairEsPrice(pow, m) == m.spxPrice
  {
  }

  /** The keys of a successful valuation. */
  const ValuationKeys: set<string> := {"spx_price", "fair_value", "fair_es_price", "arbitrage_advice"}

  function ValuationResponse(pow: (real, real) -> real, round2: real -> real, m: MarketInputs): Response {
    var fairValue := FairValue(pow, m);
    var fairEs := m.spxPrice + fairValue;
    map[
      "spx_price" := Num(m.spxPrice),
      "fair_value" := Num(round2(fairValue)),
      "fair_es_price" := Num(round2(fairEs)),
      "arbitrage_advice" := Text(AdviceText(AdviceFor(m.esPrice, fairEs)))]
  }

  // Unfolding helper for `CalculateFairValue`, not a property of its own.
  lemma ValuationResponseShape(pow: (real, real) -> real, round2: real -> real, m: MarketInputs)
    ensures var r := ValuationResponse(pow, round2, m);
      && r.Keys == ValuationKeys && "error" !in ValuationKeys
      && r["spx_price"] == Num(m.spxPrice)
      && r["fair_value"] == Num(round2(FairValue(pow, m)))
      && r["fair_es_price"] == Num(round2(FairEsPrice(pow, m)))
      && r["arbitrage_advice"] == Text(AdviceText(AdviceFor(m.esPrice, FairEsPrice(pow, m))))
  {
  }

  /** `calculate_fair_value`: an extraction error is returned unchanged; otherwise
      the inputs are read back from the extraction's mapping and valued. */
  function CalculateFairValue(
    parse: string -> Option<real>, pow: (real, real) -> real, round2: real -> real,
    status: int, page: Page): (r: Response)
    ensures var data := FetchFairValueData(parse, status, page);
      "error" in data ==> r == data
    ensures "error" in r <==> (status != 200 || !WellShaped(page))
    ensures status == 200 && WellShaped(page) ==>
      r.Keys == ValuationKeys
      && var m := Extract(parse, page).value;
      && r["spx_price"] == Num(m.spxPrice)
      && r["fair_value"] == Num(round2(FairValue(pow, m)))
      && r["fair_es_price"] == Num(round2(FairEsPrice(pow, m)))
      && r["arbitrage_advice"] == Text(AdviceText(AdviceFor(m.esPrice, FairEsPrice(pow, m))))
  {
    var data := FetchFairValueData(parse, status, page);
    if "error" in data then data
    else
      var m := DecodeInputs(data).value;
      ValuationResponseShape(pow, round2, m);
      ValuationResponse(pow, round2, m)
  }

  /** The advice compares the ES price with the unrounded fair price, so it is the
      same whatever the rounding of the displayed prices does. */
  lemma AdviceIgnoresRounding(
    parse: string -> Option<real>, pow: (real, real) -> real, round2: real -> real, round2': real -> real,
    status: int, page: Page)
    requires status == 200 && WellShaped(page)
    ensures CalculateFairValue(parse, pow, round2, status, page)["arbitrage_advice"]
         == CalculateFairValue(parse, pow, round2', status, page)["arbitrage_advice"]
  {
  }

  /** The short advice is given exactly when the scraped ES price is above the
      unrounded fair price; equality gives the buy advice. */
  lemma ShortExactlyWhenAbove(
    parse: string -> Option<real>, pow: (real, real) -> real, round2: real -> real, page: Page)
    requires WellShaped(page)
    ensures var m := Extract(parse, page).value;
      CalculateFairValue(parse, pow, round2, 200, page)["arbitrage_advice"] == Text(AdviceText(ShortEs))
      <==> m.esPrice > FairEsPrice(pow, m)
  {
    var m := Extract(parse, page).value;
    AdviceTextInjective(AdviceFor(m.esPrice, FairEsPrice(pow, m)), ShortEs);
  }
}
