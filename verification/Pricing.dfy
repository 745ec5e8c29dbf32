/**
 Pricing of model calls. Money is an integer number of 1e-8 USD, the precision every amount is
 rounded to; rates are integer cents per million tokens.
 */
module Pricing {
  datatype Rates = Rates(input: nat, output: nat, thinking: nat, cached: nat, cacheWrite: nat)

  const LUNA := Rates(20, 120, 120, 2, 25)
  const TERRA := Rates(200, 1200, 1200, 20, 250)
  const SOL := Rates(500, 3000, 3000, 50, 625)

  function ResolveModelName(model: string): string {
    if model == "gpt-5.6" then "gpt-5.6-sol" else model
  }

  predicate Listed(model: string) {
    model in ["gpt-5.6-luna", "gpt-5.6-terra", "gpt-5.6-sol"]
  }

  function RatesFor(model: string): Rates {
    var name := if Listed(model) then model else ResolveModelName(model);
    if name == "gpt-5.6-terra" then TERRA
    else if name == "gpt-5.6-sol" then SOL
    else LUNA
  }

  datatype TokenUsage = TokenUsage(input: nat, output: nat, thinking: nat, cached: nat, cacheWrite: nat)
  {
    function Total(): nat { input + output + thinking + cached }

    function Plus(u: TokenUsage): TokenUsage {
      TokenUsage(input + u.input, output + u.output, thinking + u.thinking, cached + u.cached,
                 cacheWrite + u.cacheWrite)
    }
  }

  function NoTokens(): TokenUsage { TokenUsage(0, 0, 0, 0, 0) }

  /** n / d rounded to an integer, halves to even: `Decimal.quantize` in the default context. */
  function Quantize(n: int, d: int): (q: int)
    requires d > 0
    ensures -d <= 2 * (q * d - n) <= d
  {
    var q, r := n / d, n % d;
    assert n == q * d + r;
    if 2 * r < d then q
    else if 2 * r > d then
      assert (q + 1) * d == q * d + d;
      q + 1
    else if q % 2 == 0 then q
    else
      assert (q + 1) * d == q * d + d;
      q + 1
  }

  const UNIT := 100_000_000   // 1e-8 USD in a dollar
  const MILLION := 1_000_000
  const CENTS := 100

  function PlainInput(u: TokenUsage): nat { if u.input >= u.cacheWrite then u.input - u.cacheWrite else 0 }

  /** Cents per million, summed over the kinds of tokens. */
  function Weighted(r: Rates, u: TokenUsage): nat {
    PlainInput(u) * r.input + u.cacheWrite * r.cacheWrite + u.output * r.output
    + u.thinking * r.thinking + u.cached * r.cached
  }

  function ComputeCost(model: string, u: TokenUsage): int {
    Quantize(Weighted(RatesFor(model), u) * UNIT, CENTS * MILLION)
  }

  /** A billing markup, as a fraction. */
  datatype Markup = Markup(num: int, den: int)

  type ValidMarkup = m: Markup | m.num >= 0 && m.den > 0 witness Markup(1, 1)

  const AT_COST: ValidMarkup := Markup(1, 1)

  function ApplyMarkup(markup: ValidMarkup, cost: int): int { Quantize(cost * markup.num, markup.den) }

  function CacheSavings(model: string, markup: ValidMarkup, cached: nat, cacheWrite: nat): int {
    if cached == 0 && cacheWrite == 0 then 0
    else
      var r := RatesFor(model);
      Quantize((cached * (r.input - r.cached) - cacheWrite * (r.cacheWrite - r.input)) * markup.num * UNIT,
               markup.den * CENTS * MILLION)
  }

  /** The counts a response reports; reasoning and cached tokens are parts of its totals. */
  function UsageFromResponse(inputTotal: nat, outputTotal: nat, cached: nat, cacheWrite: nat,
                             reasoning: nat): TokenUsage {
    TokenUsage(if inputTotal >= cached then inputTotal - cached else 0,
               if outputTotal >= reasoning then outputTotal - reasoning else 0,
               reasoning, cached, cacheWrite)
  }

  /** No token is lost or counted twice as long as the parts do not exceed their totals. */
  lemma UsageConservesTokens(inputTotal: nat, outputTotal: nat, cached: nat, cacheWrite: nat, reasoning: nat)
    ensures var u := UsageFromResponse(inputTotal, outputTotal, cached, cacheWrite, reasoning);
            u.Total() == inputTotal + outputTotal <==> (cached <= inputTotal && reasoning <= outputTotal)
  {
  }

  // ---------------------------------------------------------------------------------------

  lemma Distribute(a: int, b: int, c: int)
    ensures a * (b + c) == a * b + a * c
    ensures (b + c) * a == b * a + c * a
  {
  }

  lemma ProductAtLeast(k: int, d: int)
    requires k >= 1 && d > 0
    ensures k * d >= d
  {
    Distribute(d, k - 1, 1);
  }

  lemma NearestIsExact(k: int, d: int)
    requires d > 0 && -d <= 2 * (k * d) <= d
    ensures k == 0
  {
    if k > 0 {
      ProductAtLeast(k, d);
    } else if k < 0 {
      ProductAtLeast(-k, d);
    }
  }

  lemma QuantizeExact(n: int, d: int)
    requires d > 0
    ensures Quantize(n * d, d) == n
  {
    var q := Quantize(n * d, d);
    assert q * d - n * d == (q - n) * d;
    NearestIsExact(q - n, d);
  }

  /** With the listed rates, rounding a cost to 1e-8 USD loses nothing. */
  lemma CostIsExact(model: string, u: TokenUsage)
    ensures ComputeCost(model, u) == Weighted(RatesFor(model), u)
  {
    QuantizeExact(Weighted(RatesFor(model), u), UNIT);
  }

  /** One call writes more tokens to the cache than it has input, the other fewer. */
  predicate OppositeExcess(a: TokenUsage, b: TokenUsage) {
    (a.cacheWrite < a.input && b.input < b.cacheWrite) || (a.input < a.cacheWrite && b.cacheWrite < b.input)
  }

  lemma WeightedOfSum(r: Rates, a: TokenUsage, b: TokenUsage)
    ensures Weighted(r, a) + Weighted(r, b) - Weighted(r, a.Plus(b)) ==
            (PlainInput(a) + PlainInput(b)) * r.input - PlainInput(a.Plus(b)) * r.input
  {
    Distribute(r.input, PlainInput(a), PlainInput(b));
    Distribute(r.cacheWrite, a.cacheWrite, b.cacheWrite);
    Distribute(r.output, a.output, b.output);
    Distribute(r.thinking, a.thinking, b.thinking);
    Distribute(r.cached, a.cached, b.cached);
  }

  /** Two calls priced apart cost more than priced together by the plain input lost between them. */
  lemma CostOfTwo(model: string, a: TokenUsage, b: TokenUsage)
    ensures ComputeCost(model, a) + ComputeCost(model, b) - ComputeCost(model, a.Plus(b)) ==
            (PlainInput(a) + PlainInput(b) - PlainInput(a.Plus(b))) * RatesFor(model).input
  {
    CostIsExact(model, a);
    CostIsExact(model, b);
    CostIsExact(model, a.Plus(b));
    WeightedOfSum(RatesFor(model), a, b);
    Distribute(RatesFor(model).input, PlainInput(a) + PlainInput(b) - PlainInput(a.Plus(b)), PlainInput(a.Plus(b)));
  }

  lemma NothingLostIff(lost: int, rate: nat)
    requires rate > 0
    ensures lost * rate == 0 <==> lost == 0
  {
    if lost > 0 {
      ProductAtLeast(lost, rate);
    } else if lost < 0 {
      ProductAtLeast(-lost, rate);
    }
  }

  /** Costs add up exactly when the excesses of cache writes over input do not point both ways. */
  lemma CostAddsIffNoOppositeExcess(model: string, a: TokenUsage, b: TokenUsage)
    ensures ComputeCost(model, a.Plus(b)) == ComputeCost(model, a) + ComputeCost(model, b) <==> !OppositeExcess(a, b)
  {
    var lost := PlainInput(a) + PlainInput(b) - PlainInput(a.Plus(b));
    CostOfTwo(model, a, b);
    NothingLostIff(lost, RatesFor(model).input);
    assert lost == 0 <==> !OppositeExcess(a, b);
  }

  function AllPlain(u: TokenUsage): TokenUsage { TokenUsage(u.input + u.cached, u.output, u.thinking, 0, 0) }

  lemma WeightedDifference(r: Rates, u: TokenUsage)
    ensures Weighted(r, AllPlain(u)) - Weighted(r, u) ==
            u.cached * (r.input - r.cached) - u.cacheWrite * (r.cacheWrite - r.input)
            + (u.input - u.cacheWrite) * r.input - PlainInput(u) * r.input
  {
    Distribute(r.input, u.input, u.cached);
    Distribute(r.input, u.input - u.cacheWrite, u.cacheWrite);
    Distribute(u.cached, r.input - r.cached, r.cached);
    Distribute(u.cacheWrite, r.cacheWrite - r.input, r.input);
  }

  lemma SavingsAreExact(model: string, cached: nat, cacheWrite: nat)
    ensures CacheSavings(model, AT_COST, cached, cacheWrite) ==
            cached * (RatesFor(model).input - RatesFor(model).cached)
            - cacheWrite * (RatesFor(model).cacheWrite - RatesFor(model).input)
  {
    var r := RatesFor(model);
    var saved := cached * (r.input - r.cached) - cacheWrite * (r.cacheWrite - r.input);
    assert saved * AT_COST.num * UNIT == saved * UNIT;
    QuantizeExact(saved, UNIT);
  }

  /** What caching saves, at cost, is the price of all input as plain input less the actual price,
      exactly when cache writes do not exceed the input they are charged within. */
  lemma SavingsAreTheDifferenceIffWritesFit(model: string, u: TokenUsage)
    ensures u.cacheWrite <= u.input <==>
            CacheSavings(model, AT_COST, u.cached, u.cacheWrite) ==
            ComputeCost(model, AllPlain(u)) - ComputeCost(model, u)
  {
    var r := RatesFor(model);
    CostIsExact(model, u);
    CostIsExact(model, AllPlain(u));
    SavingsAreExact(model, u.cached, u.cacheWrite);
    WeightedDifference(r, u);
    if u.cacheWrite > u.input {
      ProductAtLeast(u.cacheWrite - u.input, r.input);
      Distribute(r.input, u.cacheWrite - u.input, u.input - u.cacheWrite);
    }
  }

  /** The bound on one call's rounding, with the factors the other way round. */
  lemma MarkupBound(markup: ValidMarkup, cost: int)
    ensures -markup.den <= 2 * (markup.den * ApplyMarkup(markup, cost) - markup.num * cost) <= markup.den
  {
  }

  function BilledSum(markup: ValidMarkup, costs: seq<int>): int {
    if costs == [] then 0
    else BilledSum(markup, costs[..|costs| - 1]) + ApplyMarkup(markup, costs[|costs| - 1])
  }

  function Sum(costs: seq<int>): int {
    if costs == [] then 0 else Sum(costs[..|costs| - 1]) + costs[|costs| - 1]
  }

  lemma DriftStep(k: int, markup: ValidMarkup, billed: int, due: int, b: int, c: int)
    requires -(k * markup.den) <= 2 * (markup.den * billed - markup.num * due) <= k * markup.den
    requires -markup.den <= 2 * (markup.den * b - markup.num * c) <= markup.den
    ensures -((k + 1) * markup.den) <= 2 * (markup.den * (billed + b) - markup.num * (due + c)) <= (k + 1) * markup.den
  {
    Distribute(markup.den, billed, b);
    Distribute(markup.num, due, c);
    Distribute(markup.den, k, 1);
  }

  /** Billing call by call drifts from the markup on the total by at most half a unit a call. */
  lemma {:induction false} BillingDrift(markup: ValidMarkup, costs: seq<int>)
    ensures -(|costs| * markup.den) <= 2 * (markup.den * BilledSum(markup, costs) - markup.num * Sum(costs))
            <= |costs| * markup.den
  {
    if costs != [] {
      var init, last := costs[..|costs| - 1], costs[|costs| - 1];
      BillingDrift(markup, init);
      MarkupBound(markup, last);
      DriftStep(|init|, markup, BilledSum(markup, init), Sum(init), ApplyMarkup(markup, last), last);
    }
  }

  // ---------------------------------------------------------------------------------------
  // What each token costs

  /** The prices of one token in 1e-8 USD: input, output, thinking, cached, written to the cache. */
  function Prices(model: string): (int, int, int, int, int) {
    if model == "gpt-5.6-terra" then (200, 1200, 1200, 20, 250)
    else if model == "gpt-5.6-sol" || model == "gpt-5.6" then (500, 3000, 3000, 50, 625)
    else (20, 120, 120, 2, 25)
  }

  lemma RatesArePrices(model: string)
    ensures var r := RatesFor(model); (r.input, r.output, r.thinking, r.cached, r.cacheWrite) == Prices(model)
  {
  }

  /** No tokens cost nothing. One more token of a kind costs that kind's price; one of input costs
      nothing while all input is charged as cache writes, and one written to the cache takes the
      place of one of input while there is any. */
  lemma MarginalPrices(model: string, u: TokenUsage)
    ensures var (input, output, thinking, cached, written) := Prices(model);
            var cost := ComputeCost(model, u);
            && ComputeCost(model, TokenUsage(0, 0, 0, 0, 0)) == 0
            && ComputeCost(model, u.(output := u.output + 1)) == cost + output
            && ComputeCost(model, u.(thinking := u.thinking + 1)) == cost + thinking
            && ComputeCost(model, u.(cached := u.cached + 1)) == cost + cached
            && ComputeCost(model, u.(input := u.input + 1)) == cost + (if u.input < u.cacheWrite then 0 else input)
            && ComputeCost(model, u.(cacheWrite := u.cacheWrite + 1)) ==
                 cost + written - (if u.cacheWrite < u.input then input else 0)
  {
    RatesArePrices(model);
    CostIsExact(model, TokenUsage(0, 0, 0, 0, 0));
    CostIsExact(model, u);
    CostIsExact(model, u.(output := u.output + 1));
    CostIsExact(model, u.(thinking := u.thinking + 1));
    CostIsExact(model, u.(cached := u.cached + 1));
    CostIsExact(model, u.(input := u.input + 1));
    CostIsExact(model, u.(cacheWrite := u.cacheWrite + 1));
    OneMoreOut(RatesFor(model), u);
    OneMoreIn(RatesFor(model), u);
  }

  lemma OneMoreOut(r: Rates, u: TokenUsage)
    ensures Weighted(r, u.(output := u.output + 1)) == Weighted(r, u) + r.output
    ensures Weighted(r, u.(thinking := u.thinking + 1)) == Weighted(r, u) + r.thinking
    ensures Weighted(r, u.(cached := u.cached + 1)) == Weighted(r, u) + r.cached
  {
    Distribute(r.output, u.output, 1);
    Distribute(r.thinking, u.thinking, 1);
    Distribute(r.cached, u.cached, 1);
  }

  lemma OneMoreIn(r: Rates, u: TokenUsage)
    ensures Weighted(r, u.(input := u.input + 1)) == Weighted(r, u) + if u.input < u.cacheWrite then 0 else r.input
    ensures Weighted(r, u.(cacheWrite := u.cacheWrite + 1)) ==
            Weighted(r, u) + r.cacheWrite - if u.cacheWrite < u.input then r.input else 0
  {
    Distribute(r.cacheWrite, u.cacheWrite, 1);
    Distribute(r.input, PlainInput(u), 1);
    Distribute(r.input, PlainInput(u), -1);
  }

  /** Billing rounds to the nearest unit, and to the even one of two that are as near. */
  lemma BillingRoundsToEven(markup: ValidMarkup, cost: int)
    ensures var off := markup.den * ApplyMarkup(markup, cost) - markup.num * cost;
            && -markup.den <= 2 * off <= markup.den
            && (2 * off == markup.den || 2 * off == -markup.den ==> ApplyMarkup(markup, cost) % 2 == 0)
  {
    QuantizeTies(cost * markup.num, markup.den);
    MarkupBound(markup, cost);
    assert markup.den * ApplyMarkup(markup, cost) == ApplyMarkup(markup, cost) * markup.den;
  }

  lemma QuantizeTies(n: int, d: int)
    requires d > 0
    ensures var off := Quantize(n, d) * d - n; 2 * off == d || 2 * off == -d ==> Quantize(n, d) % 2 == 0
  {
    var q, r := n / d, n % d;
    assert n == q * d + r;
    assert (q + 1) * d == q * d + d;
  }

  /** With a markup the savings shown are the marked-up savings to half a unit; without caching there
      are none. */
  lemma SavingsAreMarkedUp(model: string, markup: ValidMarkup, cached: nat, cacheWrite: nat)
    ensures var saved := cached * (RatesFor(model).input - RatesFor(model).cached)
                         - cacheWrite * (RatesFor(model).cacheWrite - RatesFor(model).input);
            var off := CacheSavings(model, markup, cached, cacheWrite) * markup.den - saved * markup.num;
            -markup.den <= 2 * off <= markup.den
  {
    var saved := cached * (RatesFor(model).input - RatesFor(model).cached)
                 - cacheWrite * (RatesFor(model).cacheWrite - RatesFor(model).input);
    var q := CacheSavings(model, markup, cached, cacheWrite);
    if cached > 0 || cacheWrite > 0 {
      var d := markup.den * CENTS * MILLION;
      assert -d <= 2 * (q * d - saved * markup.num * UNIT) <= d;
      assert q * d == q * markup.den * UNIT;
    }
  }

  /** Cached tokens are taken out of the input, reasoning out of the output, neither below zero. */
  lemma ResponseIsSplit(inputTotal: nat, outputTotal: nat, cached: nat, cacheWrite: nat, reasoning: nat)
    ensures var u := UsageFromResponse(inputTotal, outputTotal, cached, cacheWrite, reasoning);
            && u.cached == cached && u.thinking == reasoning && u.cacheWrite == cacheWrite
            && (if cached <= inputTotal then u.input + cached == inputTotal else u.input == 0)
            && (if reasoning <= outputTotal then u.output + reasoning == outputTotal else u.output == 0)
            && u.Total() == u.input + u.output + reasoning + cached
  {
  }
}
