/** Quoting the book from the taker's side: the gross price of a fill, the largest
    fill a budget affords, and the greedy scan that `quote_fill` reports. */
module BookQuote {
  import opened Results
  import opened MulDiv
  import opened Chain
  import opened SwapBook
  import opened BookInvariant
  import opened BookCalls

  /** What a taker must send so that `net` is left after the fee. */
  function GrossForNet(rate: FeeRate, net: nat): nat {
    Ceil(net, FEE_DENOMINATOR, FEE_DENOMINATOR - rate)
  }

  /** What a number of units of a Fixed order costs, fee included. */
  function FixedGross(o: Order, rate: FeeRate, units: nat): nat
    requires o.terms.Fixed?
  {
    GrossForNet(rate, Ceil(o.terms.minOut, units, o.amountIn))
  }

  function RequiredGross(o: Order, env: Env, rate: FeeRate, fill: nat): Result<nat> {
    var net :- RequiredPayment(o, env, fill);
    var gross := GrossForNet(rate, net);
    if gross <= I128_MAX then Ok(gross) else Err(Trap)
  }

  /** What a budget leaves once the fee is stripped. */
  function NetBudget(rate: FeeRate, budget: nat): nat {
    Floor(budget, FEE_DENOMINATOR - rate, FEE_DENOMINATOR)
  }

  /** An oracle order's fair value a net budget reaches at its slippage. */
  function FairBudget(net: nat, slippage: Slippage): nat {
    Floor(net, BPS_DENOMINATOR, BPS_DENOMINATOR - slippage)
  }

  /** The price inverted: an estimate of the largest affordable fill. */
  function Estimate(o: Order, env: Env, rate: FeeRate, budget: nat): Result<nat> {
    var net := NetBudget(rate, budget);
    match o.terms
    case Fixed(minOut) =>
      var fill := Floor(net, o.amountIn, minOut);
      if fill <= I128_MAX then Ok(fill) else Err(Trap)
    case Oracle(_, slippage) =>
      var price :- FreshPrice(env, o.Market());
      var fair := FairBudget(net, slippage);
      :- Need(fair <= I128_MAX, Trap);
      var fill := Floor(fair, price.den, price.num);
      if fill <= I128_MAX then Ok(fill) else Err(Trap)
  }

  /** From an estimate down to the first fill whose exact price the budget meets. */
  function StepDown(o: Order, env: Env, rate: FeeRate, budget: nat, fill: nat): Result<(nat, nat)>
    decreases fill
  {
    if fill == 0 then Ok((0, 0))
    else
      var pay :- RequiredGross(o, env, rate, fill);
      if pay <= budget then Ok((fill, pay)) else StepDown(o, env, rate, budget, fill - 1)
  }

  function AffordableFill(o: Order, env: Env, rate: FeeRate, budget: nat): Result<(nat, nat)> {
    var fill :- Estimate(o, env, rate, budget);
    StepDown(o, env, rate, budget, Min(fill, o.remaining))
  }

  predicate Affordable(o: Order, env: Env, rate: FeeRate, budget: nat, fill: nat) {
    var pay := RequiredGross(o, env, rate, fill);
    pay.Ok? && pay.value <= budget
  }

  // ─── The fee inverse is exact ───────────────────────

  /** gross_for_net is the least payment that leaves the net after the fee. */
  lemma GrossIsLeast(rate: FeeRate, net: nat, gross: nat)
    ensures net <= gross - Fee(rate, gross) <==> GrossForNet(rate, net) <= gross
  {
    CeilGalois(gross, rate, FEE_DENOMINATOR, gross - net);
    CeilGalois(net, FEE_DENOMINATOR, FEE_DENOMINATOR - rate, gross);
  }

  /** Stripping the fee from a budget inverts adding it to a price. */
  lemma NetBudgetExact(rate: FeeRate, net: nat, budget: nat)
    ensures GrossForNet(rate, net) <= budget <==> net <= NetBudget(rate, budget)
  {
    CeilGalois(net, FEE_DENOMINATOR, FEE_DENOMINATOR - rate, budget);
    FloorGalois(budget, FEE_DENOMINATOR - rate, FEE_DENOMINATOR, net);
  }

  // ─── The affordable fill ────────────────────────────

  /** What a Fixed order sells for a budget: the inverted price, within the remainder. */
  function FixedFill(o: Order, rate: FeeRate, budget: nat): nat
    requires o.terms.Fixed?
  {
    Min(Floor(NetBudget(rate, budget), o.amountIn, o.terms.minOut), o.remaining)
  }

  /** A Fixed order's price is met exactly up to the inverted budget. */
  lemma FixedGrossExact(o: Order, rate: FeeRate, units: nat, budget: nat)
    requires o.terms.Fixed?
    ensures FixedGross(o, rate, units) <= budget
            <==> units <= Floor(NetBudget(rate, budget), o.amountIn, o.terms.minOut)
  {
    var p, d, net := o.terms.minOut, o.amountIn, NetBudget(rate, budget);
    CeilGalois(p, units, d, net);
    FloorGalois(net, d, p, units);
    hide Ceil, Floor, NetBudget;
    NetBudgetExact(rate, Ceil(p, units, d), budget);
  }

  /** A Fixed order's estimate is exact: a fill is affordable just up to it. */
  lemma FixedEstimateExact(o: Order, env: Env, rate: FeeRate, budget: nat, fill: nat)
    requires o.terms.Fixed? && budget <= I128_MAX
    ensures Affordable(o, env, rate, budget, fill)
            <==> fill <= Floor(NetBudget(rate, budget), o.amountIn, o.terms.minOut)
  {
    FixedGrossExact(o, rate, fill, budget);
    hide Ceil, Floor, NetBudget, GrossForNet;
  }

  /** An oracle fill is affordable just while its fair value is within reach. */
  lemma OracleAffordableIff(o: Order, env: Env, rate: FeeRate, budget: nat, fill: nat)
    requires o.terms.Oracle? && budget <= I128_MAX && FreshPrice(env, o.Market()).Ok?
    requires FairBudget(NetBudget(rate, budget), o.terms.slippageBps) <= I128_MAX
    ensures var price := FreshPrice(env, o.Market()).value;
            Affordable(o, env, rate, budget, fill)
            <==> fill * price.num < (FairBudget(NetBudget(rate, budget), o.terms.slippageBps) + 1) * price.den
  {
    var price := FreshPrice(env, o.Market()).value;
    var fair := Floor(fill, price.num, price.den);
    var keep: pos := BPS_DENOMINATOR - o.terms.slippageBps;
    var net := NetBudget(rate, budget);
    NetBudgetExact(rate, Ceil(fair, keep, BPS_DENOMINATOR), budget);
    CeilGalois(fair, keep, BPS_DENOMINATOR, net);
    FloorGalois(net, BPS_DENOMINATOR, keep, fair);
    FloorGalois(fill, price.num, price.den, FairBudget(net, o.terms.slippageBps) + 1);
  }

  /** The estimate is always affordable, in both modes, and so is any part of it. */
  lemma EstimateAffordable(o: Order, env: Env, rate: FeeRate, budget: nat, fill: nat)
    requires budget <= I128_MAX
    requires Estimate(o, env, rate, budget).Ok? && fill <= Estimate(o, env, rate, budget).value
    ensures Affordable(o, env, rate, budget, fill)
  {
    match o.terms
    case Fixed(_) => FixedEstimateExact(o, env, rate, budget, fill);
    case Oracle(_, slippage) =>
      var price := FreshPrice(env, o.Market()).value;
      var fair := FairBudget(NetBudget(rate, budget), slippage);
      OracleAffordableIff(o, env, rate, budget, fill);
      FloorGalois(fair, price.den, price.num, fill);
      assert fair * price.den < (fair + 1) * price.den;
  }

  /** The step-down loop never decrements: the first fill it tries is affordable. */
  lemma NeverStepsDown(o: Order, env: Env, rate: FeeRate, budget: nat)
    requires budget <= I128_MAX && Estimate(o, env, rate, budget).Ok?
    ensures var fill := Min(Estimate(o, env, rate, budget).value, o.remaining);
            && AffordableFill(o, env, rate, budget).Ok?
            && AffordableFill(o, env, rate, budget).value.0 == fill
            && (0 < fill ==> RequiredGross(o, env, rate, fill) == Ok(AffordableFill(o, env, rate, budget).value.1))
            && AffordableFill(o, env, rate, budget).value.1 <= budget
  {
    EstimateAffordable(o, env, rate, budget, Min(Estimate(o, env, rate, budget).value, o.remaining));
  }

  /** No larger part of the order is affordable. */
  ghost predicate Largest(o: Order, env: Env, rate: FeeRate, budget: nat, fill: nat) {
    && fill <= o.remaining && Affordable(o, env, rate, budget, fill)
    && forall more: nat :: fill < more <= o.remaining ==> !Affordable(o, env, rate, budget, more)
  }

  /** For a Fixed order the answer is the true largest affordable fill. */
  lemma FixedFillIsLargest(o: Order, env: Env, rate: FeeRate, budget: nat)
    requires o.terms.Fixed? && budget <= I128_MAX && AffordableFill(o, env, rate, budget).Ok?
    ensures Largest(o, env, rate, budget, AffordableFill(o, env, rate, budget).value.0)
  {
    NeverStepsDown(o, env, rate, budget);
    var fill := AffordableFill(o, env, rate, budget).value.0;
    FixedEstimateExact(o, env, rate, budget, fill);
    forall more: nat | fill < more <= o.remaining ensures !Affordable(o, env, rate, budget, more) {
      FixedEstimateExact(o, env, rate, budget, more);
    }
  }

  /** One unit past the inverted price stays in reach unless inverting leaves room
      for a whole denominator. */
  lemma InversionGap(fair: nat, num: pos, den: pos)
    ensures (Floor(fair, den, num) + 1) * num < (fair + 1) * den <==> num < fair * den % num + den
  {
    var q := fair * den / num;
    assert q * num + fair * den % num == fair * den;
    assert (q + 1) * num == q * num + num;
    assert (fair + 1) * den == fair * den + den;
  }

  lemma OracleEstimate(o: Order, env: Env, rate: FeeRate, budget: nat)
    requires o.terms.Oracle? && Estimate(o, env, rate, budget).Ok?
    ensures FreshPrice(env, o.Market()).Ok?
    ensures var price := FreshPrice(env, o.Market()).value;
            var fair := FairBudget(NetBudget(rate, budget), o.terms.slippageBps);
            fair <= I128_MAX && Estimate(o, env, rate, budget).value == Floor(fair, price.den, price.num)
  {
    hide Floor, NetBudget, FairBudget;
  }

  /** Affordability only falls as the fill grows. */
  lemma OracleAffordableAntitone(o: Order, env: Env, rate: FeeRate, budget: nat, less: nat, more: nat)
    requires o.terms.Oracle? && budget <= I128_MAX && Estimate(o, env, rate, budget).Ok? && less <= more
    requires Affordable(o, env, rate, budget, more)
    ensures Affordable(o, env, rate, budget, less)
  {
    hide Affordable, FairBudget, NetBudget, Floor, Estimate, FreshPrice;
    OracleEstimate(o, env, rate, budget);
    OracleAffordableIff(o, env, rate, budget, less);
    OracleAffordableIff(o, env, rate, budget, more);
    var num := FreshPrice(env, o.Market()).value.num;
    assert less * num <= more * num;
  }

  /** For an oracle order the answer is affordable but may fall short; it is the
      largest exactly when the order is exhausted or inverting the price leaves
      room for a whole denominator. */
  lemma OracleFillIsLargestIff(o: Order, env: Env, rate: FeeRate, budget: nat)
    requires o.terms.Oracle? && budget <= I128_MAX && AffordableFill(o, env, rate, budget).Ok?
    ensures var price := FreshPrice(env, o.Market()).value;
            var fair := FairBudget(NetBudget(rate, budget), o.terms.slippageBps);
            Largest(o, env, rate, budget, AffordableFill(o, env, rate, budget).value.0)
            <==> o.remaining <= Floor(fair, price.den, price.num)
                 || fair * price.den % price.num + price.den <= price.num
  {
    NeverStepsDown(o, env, rate, budget);
    var price := FreshPrice(env, o.Market()).value;
    var fair := FairBudget(NetBudget(rate, budget), o.terms.slippageBps);
    var q := Estimate(o, env, rate, budget).value;
    assert q == Floor(fair, price.den, price.num);
    EstimateAffordable(o, env, rate, budget, Min(q, o.remaining));
    OracleAffordableIff(o, env, rate, budget, q + 1);
    InversionGap(fair, price.num, price.den);
    hide AffordableFill, Affordable, Floor, FairBudget, NetBudget, Estimate;
    forall more: nat | q < more <= o.remaining && Affordable(o, env, rate, budget, more)
      ensures Affordable(o, env, rate, budget, q + 1)
    {
      OracleAffordableAntitone(o, env, rate, budget, q + 1, more);
    }
  }

  /** An oracle quote that leaves an affordable unit on the table. */
  lemma OracleFillCanFallShort()
    ensures exists o: Order, env: Env, budget: nat ::
              && o.terms.Oracle? && AffordableFill(o, env, 0, budget).Ok?
              && !Largest(o, env, 0, budget, AffordableFill(o, env, 0, budget).value.0)
  {
    var a, b := Address(1), Address(2);
    var o := Order(1, Address(3), a, b, 100, 100, Oracle(0, 1), 10, Open, 1, 0, []);
    var env := Env(1, map[Pair(a, b) := Price(1, 2, 1)]);
    assert FreshPrice(env, o.Market()) == Ok(Price(1, 2, 1));
    assert NetBudget(0, 10) == 10 && FairBudget(10, 1) == 10;
    assert Estimate(o, env, 0, 10) == Ok(20);
    NeverStepsDown(o, env, 0, 10);
    OracleFillIsLargestIff(o, env, 0, 10);
  }
}
