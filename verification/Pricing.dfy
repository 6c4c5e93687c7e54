/**
 * The price of one provider response (src/metering/billing.ts). A price per
 * million tokens in dollars is the same number of micro-USD per token, so a
 * cost in micro-USD is a sum of token counts times prices, rounded once.
 */
module Pricing {
  import opened Wrappers

  datatype TokenUsage = TokenUsage(
    inputTokens: int,
    outputTokens: int,
    cachedTokens: int,
    cacheWriteTokens: Option<int>)

  datatype ModelPricing = ModelPricing(
    input: real,
    output: real,
    cacheRead: Option<real>,
    cacheWrite: Option<real>)

  datatype Buckets = Buckets(uncached: int, cached: int, written: int)

  function Max(x: int, y: int): int {
    if x < y then y else x
  }

  function Min(x: int, y: int): int {
    if x < y then x else y
  }

  /** A cache price counts only when it is present and not negative. */
  predicate Usable(price: Option<real>) {
    price.Some? && price.value >= 0.0
  }

  function PriceOr(price: Option<real>, fallback: real): real {
    if Usable(price) then price.value else fallback
  }

  /** `toFixed`: to the nearest integer, halves away from zero. */
  function Round(x: real): int {
    if x < 0.0 then -((0.5 - x).Floor) else (x + 0.5).Floor
  }

  /** Cache writes are taken out of the prompt first, then cache reads. */
  function PromptBuckets(u: TokenUsage): (b: Buckets)
    ensures b.uncached >= 0 && b.cached >= 0 && b.written >= 0
    ensures b.uncached + b.cached + b.written == Max(0, u.inputTokens)
    ensures b.written <= Max(0, ReportedWrites(u)) && b.cached <= Max(0, u.cachedTokens)
  {
    var prompt := Max(0, u.inputTokens);
    var written := Min(prompt, Max(0, ReportedWrites(u)));
    var cached := Min(prompt - written, Max(0, u.cachedTokens));
    Buckets(prompt - written - cached, cached, written)
  }

  function ReportedWrites(u: TokenUsage): int {
    if u.cacheWriteTokens.Some? then u.cacheWriteTokens.value else 0
  }

  function Priced(tokens: int, price: real): real {
    tokens as real * price
  }

  function PromptCost(b: Buckets, p: ModelPricing): real {
    Priced(b.uncached, p.input)
    + Priced(b.cached, PriceOr(p.cacheRead, p.input))
    + Priced(b.written, PriceOr(p.cacheWrite, p.input))
  }

  /** `calculateCostUsd`, in micro-USD. */
  function CostMicros(u: TokenUsage, p: ModelPricing): int {
    Round(PromptCost(PromptBuckets(u), p) + Priced(u.outputTokens, p.output))
  }

  /** `maximumPromptPricePerMillion`: the highest rate any prompt token can be billed at. */
  function MaximumPromptPrice(p: ModelPricing): (m: real)
    ensures p.input <= m && PriceOr(p.cacheRead, p.input) <= m && PriceOr(p.cacheWrite, p.input) <= m
    ensures m == p.input || p.cacheRead == Some(m) || p.cacheWrite == Some(m)
  {
    var withRead := if Usable(p.cacheRead) && p.cacheRead.value > p.input then p.cacheRead.value else p.input;
    if Usable(p.cacheWrite) && p.cacheWrite.value > withRead then p.cacheWrite.value else withRead
  }

  predicate NonNegativePrices(p: ModelPricing) {
    p.input >= 0.0 && p.output >= 0.0
  }

  // ----- Reference definition: one price per prompt token

  /** The price of the i-th prompt token: writes first, then reads, then the rest. */
  function TokenPrice(u: TokenUsage, p: ModelPricing, i: nat): real {
    var written := if u.cacheWriteTokens.Some? && u.cacheWriteTokens.value > 0 then u.cacheWriteTokens.value else 0;
    var cached := if u.cachedTokens > 0 then u.cachedTokens else 0;
    var rate :=
      if i < written then p.cacheWrite
      else if i < written + cached then p.cacheRead
      else None;
    if rate.Some? && rate.value >= 0.0 then rate.value else p.input
  }

  function PricedPerToken(u: TokenUsage, p: ModelPricing, n: nat): real {
    if n == 0 then 0.0 else PricedPerToken(u, p, n - 1) + TokenPrice(u, p, n - 1)
  }

  lemma OneMoreToken(n: int, price: real)
    ensures Priced(n + 1, price) == Priced(n, price) + price
  {
  }

  lemma PricedMonotone(m: int, n: int, price: real)
    requires m <= n && price >= 0.0
    ensures Priced(m, price) <= Priced(n, price)
  {
    assert (n - m) as real * price >= 0.0;
  }

  /** Clamping malformed cache counts into buckets prices every prompt token exactly once. */
  lemma {:induction false} BucketsPriceEachToken(u: TokenUsage, p: ModelPricing, n: nat)
    ensures PromptCost(PromptBuckets(u.(inputTokens := n)), p) == PricedPerToken(u, p, n)
  {
    if n > 0 {
      BucketsPriceEachToken(u, p, n - 1);
      var b := PromptBuckets(u.(inputTokens := n));
      var c := PromptBuckets(u.(inputTokens := n - 1));
      if n - 1 < Max(0, ReportedWrites(u)) {
        assert b == c.(written := c.written + 1);
        OneMoreToken(c.written, PriceOr(p.cacheWrite, p.input));
      } else if n - 1 < Max(0, ReportedWrites(u)) + Max(0, u.cachedTokens) {
        assert b == c.(cached := c.cached + 1);
        OneMoreToken(c.cached, PriceOr(p.cacheRead, p.input));
      } else {
        assert b == c.(uncached := c.uncached + 1);
        OneMoreToken(c.uncached, p.input);
      }
    }
  }

  /** The whole cost is the per-token price of the prompt plus the output. */
  lemma CostIsPerToken(u: TokenUsage, p: ModelPricing)
    ensures CostMicros(u, p) == Round(PricedPerToken(u, p, Max(0, u.inputTokens)) + Priced(u.outputTokens, p.output))
  {
    BucketsPriceEachToken(u, p, Max(0, u.inputTokens));
    assert PromptBuckets(u) == PromptBuckets(u.(inputTokens := Max(0, u.inputTokens)));
  }

  lemma {:induction false} PricedPerTokenMonotone(u: TokenUsage, p: ModelPricing, m: nat, n: nat)
    requires NonNegativePrices(p) && m <= n
    ensures PricedPerToken(u, p, m) <= PricedPerToken(u, p, n)
    decreases n
  {
    if m < n {
      PricedPerTokenMonotone(u, p, m, n - 1);
    }
  }

  lemma {:induction false} PricedPerTokenBounded(u: TokenUsage, p: ModelPricing, n: nat)
    requires NonNegativePrices(p)
    ensures 0.0 <= PricedPerToken(u, p, n) <= Priced(n, MaximumPromptPrice(p))
  {
    if n > 0 {
      PricedPerTokenBounded(u, p, n - 1);
      OneMoreToken(n - 1, MaximumPromptPrice(p));
    }
  }

  lemma {:induction false} SameCacheCounts(u: TokenUsage, v: TokenUsage, p: ModelPricing, n: nat)
    requires u.cachedTokens == v.cachedTokens && u.cacheWriteTokens == v.cacheWriteTokens
    ensures PricedPerToken(u, p, n) == PricedPerToken(v, p, n)
  {
    if n > 0 {
      SameCacheCounts(u, v, p, n - 1);
    }
  }

  /** Rounding moves an amount by half a micro at most, and a half away from zero. */
  lemma RoundIsNearest(x: real)
    ensures -0.5 <= Round(x) as real - x <= 0.5
    ensures Round(x) as real - x == 0.5 ==> x > 0.0
    ensures Round(x) as real - x == -0.5 ==> x < 0.0
  {
  }

  lemma RoundMonotone(x: real, y: real)
    requires x <= y
    ensures Round(x) <= Round(y)
  {
    if x < 0.0 <= y {
      assert Round(x) <= 0 <= Round(y);
    }
  }

  // ----- What the price promises

  /** The cost is the price of every prompt token and of the output, to the nearest micro. */
  lemma CostIsNearest(u: TokenUsage, p: ModelPricing)
    ensures var prompt := if u.inputTokens > 0 then u.inputTokens else 0;
      -0.5 <= CostMicros(u, p) as real - (PricedPerToken(u, p, prompt) + Priced(u.outputTokens, p.output)) <= 0.5
  {
    CostIsPerToken(u, p);
    RoundIsNearest(PricedPerToken(u, p, Max(0, u.inputTokens)) + Priced(u.outputTokens, p.output));
  }

  /** More prompt or more output never costs less, whatever the cache counts say. */
  lemma CostMonotone(u: TokenUsage, p: ModelPricing, moreInput: int, moreOutput: int)
    requires NonNegativePrices(p)
    requires u.inputTokens <= moreInput && u.outputTokens <= moreOutput
    ensures CostMicros(u, p) <= CostMicros(u.(inputTokens := moreInput, outputTokens := moreOutput), p)
  {
    var v := u.(inputTokens := moreInput, outputTokens := moreOutput);
    CostIsPerToken(u, p);
    CostIsPerToken(v, p);
    SameCacheCounts(u, v, p, Max(0, moreInput));
    PricedPerTokenMonotone(u, p, Max(0, u.inputTokens), Max(0, moreInput));
    PricedMonotone(u.outputTokens, moreOutput, p.output);
    RoundMonotone(PricedPerToken(u, p, Max(0, u.inputTokens)) + Priced(u.outputTokens, p.output),
                  PricedPerToken(v, p, Max(0, moreInput)) + Priced(moreOutput, p.output));
  }

  /** Usage within the authorized token ceilings never costs more than the authorization. */
  lemma CostWithinAuthorization(u: TokenUsage, p: ModelPricing, inputCeiling: nat, outputCeiling: int)
    requires NonNegativePrices(p)
    requires u.inputTokens <= inputCeiling && u.outputTokens <= outputCeiling
    ensures CostMicros(u, p) <= Round(Priced(inputCeiling, MaximumPromptPrice(p)) + Priced(outputCeiling, p.output))
  {
    var v := u.(inputTokens := inputCeiling, outputTokens := outputCeiling);
    CostMonotone(u, p, inputCeiling, outputCeiling);
    CostIsPerToken(v, p);
    PricedPerTokenBounded(v, p, inputCeiling);
    RoundMonotone(PricedPerToken(v, p, inputCeiling) + Priced(outputCeiling, p.output),
                  Priced(inputCeiling, MaximumPromptPrice(p)) + Priced(outputCeiling, p.output));
  }

  /** With nonnegative prices only a negative output count can make a cost negative. */
  lemma CostNonNegative(u: TokenUsage, p: ModelPricing)
    requires NonNegativePrices(p) && u.outputTokens >= 0
    ensures CostMicros(u, p) >= 0
  {
    CostIsPerToken(u, p);
    PricedPerTokenBounded(u, p, Max(0, u.inputTokens));
    PricedMonotone(0, u.outputTokens, p.output);
    RoundMonotone(0.0, PricedPerToken(u, p, Max(0, u.inputTokens)) + Priced(u.outputTokens, p.output));
  }

  /** Minus three output tokens at one micro-USD each price at minus three micro-USD. */
  lemma NegativeOutputCost()
    ensures CostMicros(TokenUsage(0, -3, 0, None), ModelPricing(0.0, 1.0, None, None)) == -3
  {
    var u := TokenUsage(0, -3, 0, None);
    var p := ModelPricing(0.0, 1.0, None, None);
    CostIsPerToken(u, p);
    assert PricedPerToken(u, p, 0) == 0.0;
    assert Priced(-3, 1.0) == -3.0;
    assert (0.5 - -3.0).Floor == 3;
  }
}
