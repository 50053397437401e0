/** quote_fill reports what a taker can actually get: replaying its fills settles
    every one of them for exactly the reported totals. */
module BookReplay {
  import opened Results
  import opened MulDiv
  import opened Chain
  import opened SwapBook
  import opened BookInvariant
  import opened BookCalls
  import opened BookQuote

  /** The fill one resting order contributes for what is left of a budget; an order
      that is closed, lapsed, unpriced or too dear contributes none. */
  function Offer(book: Book, env: Env, id: nat, budget: nat): Result<Option<FillSpec>> {
    if id !in book.orders then Ok(None)
    else
      var o := book.orders[id];
      if !o.Live() || o.expiry < env.now then Ok(None)
      else
        match AffordableFill(o, env, book.fee, budget)
        case Err(e) => if e == Trap then Err(Trap) else Ok(None)
        case Ok((fill, _)) =>
          if fill == 0 then Ok(None)
          else
            match RequiredGross(o, env, book.fee, fill)
            case Err(e) => if e == Trap then Err(Trap) else Ok(None)
            case Ok(gross) => Ok(if gross <= budget then Some(FillSpec(id, fill, gross)) else None)
  }

  /** The fills `quote_fill` sums, scanning the orders in index order. */
  function QuotePlan(book: Book, env: Env, ids: seq<nat>, budget: nat): Result<seq<FillSpec>>
    decreases |ids|
  {
    if ids == [] || budget == 0 then Ok([])
    else
      var offer :- Offer(book, env, ids[0], budget);
      match offer
      case None => QuotePlan(book, env, ids[1..], budget)
      case Some(spec) =>
        assert 0 <= spec.gross <= budget;
        var rest :- QuotePlan(book, env, ids[1..], budget - spec.gross);
        Ok([spec] + rest)
  }

  /** A quote takes the orders one at a time. */
  lemma QuotePlanCons(book: Book, env: Env, ids: seq<nat>, budget: nat)
    requires ids != [] && 0 < budget && QuotePlan(book, env, ids, budget).Ok?
    ensures Offer(book, env, ids[0], budget).Ok?
    ensures match Offer(book, env, ids[0], budget).value
            case None =>
              QuotePlan(book, env, ids[1..], budget) == QuotePlan(book, env, ids, budget)
            case Some(spec) =>
              && 0 <= spec.gross <= budget
              && QuotePlan(book, env, ids[1..], budget - spec.gross).Ok?
              && QuotePlan(book, env, ids, budget).value
                 == [spec] + QuotePlan(book, env, ids[1..], budget - spec.gross).value
  {
  }

  /** (amount bought, amount paid) for a budget of token_pay. */
  function QuoteFill(w: World, buy: Address, pay: Address, amount: int): Result<(int, int)> {
    if amount <= 0 then Ok((0, 0))
    else
      var plan :- QuotePlan(w.book, w.env, w.book.Ids(Pair(buy, pay)), amount);
      Ok((Taken(plan), Spent(plan)))
  }

  /** A positive part of a live, unlapsed order at its exact gross price. */
  predicate Sound(book: Book, env: Env, spec: FillSpec) {
    && spec.id in book.orders
    && var o := book.orders[spec.id];
    && o.Live() && env.now <= o.expiry && 0 < spec.fill <= o.remaining
    && RequiredGross(o, env, book.fee, spec.fill) == Ok(spec.gross)
  }

  lemma AscendingTail(ids: seq<nat>)
    requires Ascending(ids) && ids != []
    ensures Ascending(ids[1..]) && forall id <- ids[1..] :: id in ids && id != ids[0]
  {
    var tail := ids[1..];
    assert forall i :: 0 <= i < |tail| ==> tail[i] == ids[i + 1];
  }

  lemma {:induction false} PlanIsSound(book: Book, env: Env, ids: seq<nat>, budget: nat)
    requires budget <= I128_MAX && QuotePlan(book, env, ids, budget).Ok?
    ensures var plan := QuotePlan(book, env, ids, budget).value;
            && 0 <= Spent(plan) <= budget && 0 <= Taken(plan)
            && (forall spec <- plan :: spec.id in ids && Sound(book, env, spec))
            && (Ascending(ids) ==> Distinct(plan))
    decreases |ids|
  {
    if ids != [] && Ascending(ids) {
      AscendingTail(ids);
    }
    if ids != [] && budget != 0 {
      var offer := Offer(book, env, ids[0], budget).value;
      if offer.Some? {
        OfferIsSound(book, env, ids[0], budget);
        PlanIsSound(book, env, ids[1..], budget - offer.value.gross);
      } else {
        PlanIsSound(book, env, ids[1..], budget);
      }
    }
  }

  lemma OfferIsSound(book: Book, env: Env, id: nat, budget: nat)
    requires budget <= I128_MAX && Offer(book, env, id, budget).Ok? && Offer(book, env, id, budget).value.Some?
    ensures var spec := Offer(book, env, id, budget).value.value;
            spec.id == id && Sound(book, env, spec) && 0 <= spec.gross <= budget
  {
    var o := book.orders[id];
    NeverStepsDown(o, env, book.fee, budget);
  }

  // ─── Running a plan ─────────────────────────────────

  /** May this taker fill the order at all? */
  predicate Welcome(book: Book, taker: Address, spec: FillSpec) {
    && spec.id in book.orders
    && taker !in book.orders[spec.id].excluded && taker != book.orders[spec.id].maker
  }

  /** Everything the book asks of one fill, except the taker's funds. */
  ghost predicate Acceptable(book: Book, env: Env, taker: Address, market: Pair, spec: FillSpec) {
    && Welcome(book, taker, spec)
    && var o := book.orders[spec.id];
    && o.Market() == market && o.Live() && env.now <= o.expiry
    && 0 < spec.fill <= o.remaining && 0 < spec.gross
    && 0 < spec.gross - Fee(book.fee, spec.gross)
    && NetCoversFloor(o, env, spec.fill, spec.gross - Fee(book.fee, spec.gross))
  }

  ghost predicate Distinct(fills: seq<FillSpec>) {
    forall i, j :: 0 <= i < j < |fills| ==> fills[i].id != fills[j].id
  }

  /** An acceptable, funded fill settles, and disturbs no other order. */
  lemma AcceptableFillSettles(w: World, taker: Address, market: Pair, spec: FillSpec)
    requires Inv(w.book) && 0 <= Surplus(w, market.tokenIn) && market.tokenIn != market.tokenOut
    requires taker != w.book.self && taker != w.book.vault
    requires Acceptable(w.book, w.env, taker, market, spec)
    requires spec.gross <= Bal(w.bal, market.tokenOut, taker)
    ensures Fill(w, taker, spec.id, spec.fill, spec.gross).Ok?
    ensures var w1 := Fill(w, taker, spec.id, spec.fill, spec.gross).value;
            && Inv(w1.book) && 0 <= Surplus(w1, market.tokenIn) && OnlyOrder(w.book, w1.book, spec.id)
            && w1.env == w.env
            && Bal(w1.bal, market.tokenOut, taker) == Bal(w.bal, market.tokenOut, taker) - spec.gross
  {
    hide Inv, Surplus, Fill, NetCoversFloor;
    FillAcceptedIff(w, taker, spec.id, spec.fill, spec.gross);
    FillBook(w, taker, spec.id, spec.fill, spec.gross);
    FillSurplus(w, taker, spec.id, spec.fill, spec.gross, market.tokenIn);
    FillBalances(w, taker, spec.id, spec.fill, spec.gross);
  }

  lemma DistinctTail(plan: seq<FillSpec>)
    requires Distinct(plan) && plan != []
    ensures Distinct(plan[1..]) && forall s <- plan[1..] :: s.id != plan[0].id
  {
    assert forall i :: 0 <= i < |plan| - 1 ==> plan[1..][i] == plan[i + 1];
  }

  /** A fill of one order leaves what is acceptable of another. */
  lemma StillAcceptable(book: Book, book': Book, env: Env, taker: Address, market: Pair, id: nat, s: FillSpec)
    requires OnlyOrder(book, book', id) && s.id != id && Acceptable(book, env, taker, market, s)
    ensures Acceptable(book', env, taker, market, s)
  {
    hide NetCoversFloor, Fee;
  }

  /** A plan of acceptable fills on distinct orders runs to the end. */
  lemma {:induction false} AcceptablePlanRuns(w: World, r: Request, plan: seq<FillSpec>, spent: int)
    requires Inv(w.book) && 0 <= Surplus(w, r.tokenOut) && r.tokenIn != r.tokenOut
    requires r.maker != w.book.self && r.maker != w.book.vault
    requires Distinct(plan)
    requires forall spec <- plan :: Acceptable(w.book, w.env, r.maker, Pair(r.tokenOut, r.tokenIn), spec)
    requires Spent(plan) <= Bal(w.bal, r.tokenIn, r.maker)
    requires spent + Spent(plan) <= r.amountIn && spent + Spent(plan) <= I128_MAX
    ensures MatchFrom(w, r, plan, spent).Ok?
    decreases |plan|
  {
    hide Inv, Surplus, Fill, Bal, NetCoversFloor;
    if plan != [] {
      var spec, rest, market := plan[0], plan[1..], Pair(r.tokenOut, r.tokenIn);
      assert spec in plan && forall s <- rest :: s in plan;
      SpentNonNegative(rest);
      AcceptableFillSettles(w, r.maker, market, spec);
      var w1 := Fill(w, r.maker, spec.id, spec.fill, spec.gross).value;
      DistinctTail(plan);
      forall s <- rest ensures Acceptable(w1.book, w1.env, r.maker, market, s) {
        StillAcceptable(w.book, w1.book, w.env, r.maker, market, spec.id, s);
      }
      hide Acceptable, Distinct;
      AcceptablePlanRuns(w1, r, rest, spent + spec.gross);
    }
  }

  lemma {:induction false} SpentNonNegative(fills: seq<FillSpec>)
    requires forall spec <- fills :: 0 <= spec.gross
    ensures 0 <= Spent(fills)
  {
    if fills != [] {
      assert fills[0] in fills && forall s <- fills[1..] :: s in fills;
      SpentNonNegative(fills[1..]);
    }
  }

  /** A quoted fill is acceptable exactly when its price is positive. */
  lemma QuotedFillAcceptable(book: Book, env: Env, taker: Address, market: Pair, spec: FillSpec)
    requires Sound(book, env, spec) && Welcome(book, taker, spec) && book.orders[spec.id].Market() == market
    ensures Acceptable(book, env, taker, market, spec) <==> 0 < spec.gross
  {
    if 0 < spec.gross {
      var o := book.orders[spec.id];
      var net := RequiredPayment(o, env, spec.fill).value;
      GrossIsLeast(book.fee, net, spec.gross);
      CeilGalois(net, FEE_DENOMINATOR, FEE_DENOMINATOR - book.fee, 0);
      FloorMeansPrice(o, env, spec.fill, spec.gross - Fee(book.fee, spec.gross));
    }
  }

  /** A plan with an unpaid fill is refused. */
  lemma {:induction false} MatchNeedsPayment(w: World, r: Request, fills: seq<FillSpec>, spent: int)
    requires MatchFrom(w, r, fills, spent).Ok?
    ensures forall spec <- fills :: 0 < spec.gross
    decreases |fills|
  {
    hide Fill;
    if fills != [] {
      var w1 := Fill(w, r.maker, fills[0].id, fills[0].fill, fills[0].gross).value;
      MatchNeedsPayment(w1, r, fills[1..], spent + fills[0].gross);
      assert fills == [fills[0]] + fills[1..];
    }
  }

  lemma {:induction false} NetToStranger(book: Book, fills: seq<FillSpec>, a: Address)
    requires forall spec <- fills :: spec.id in book.orders ==> book.orders[spec.id].maker != a
    ensures NetTo(book, fills, a) == 0
  {
    if fills != [] {
      assert fills[0] in fills && forall spec <- fills[1..] :: spec in fills;
      NetToStranger(book, fills[1..], a);
    }
  }

  /** The taker's own plan, as the fills of a match_and_place call spending `amount`. */
  function TakerRequest(taker: Address, buy: Address, pay: Address, amount: int): Request {
    Request(taker, pay, buy, amount, 1, 0, false, 0, 0, [])
  }

  /** The fills behind a quote. */
  function QuotedFills(w: World, buy: Address, pay: Address, amount: nat): Result<seq<FillSpec>> {
    QuotePlan(w.book, w.env, w.book.Ids(Pair(buy, pay)), amount)
  }

  lemma QuotedFillsAreSound(w: World, buy: Address, pay: Address, amount: nat)
    requires Inv(w.book) && amount <= I128_MAX && QuotedFills(w, buy, pay, amount).Ok?
    ensures var plan := QuotedFills(w, buy, pay, amount).value;
            && Distinct(plan) && 0 <= Spent(plan) <= amount && 0 <= Taken(plan)
            && forall spec <- plan :: Sound(w.book, w.env, spec) && w.book.orders[spec.id].Market() == Pair(buy, pay)
  {
    assert Indexed(w.book, Pair(buy, pay));
    PlanIsSound(w.book, w.env, w.book.Ids(Pair(buy, pay)), amount);
  }

  /** Replaying quote_fill: for a funded taker no order excludes, the fills behind a
      quote all settle if and only if each has a positive price. */
  lemma QuoteReplaysIff(w: World, taker: Address, buy: Address, pay: Address, amount: nat)
    requires Inv(w.book) && 0 <= Surplus(w, buy) && buy != pay && amount <= I128_MAX
    requires taker != w.book.self && taker != w.book.vault
    requires QuotedFills(w, buy, pay, amount).Ok?
    requires forall spec <- QuotedFills(w, buy, pay, amount).value :: Welcome(w.book, taker, spec)
    requires Spent(QuotedFills(w, buy, pay, amount).value) <= Bal(w.bal, pay, taker)
    ensures var plan := QuotedFills(w, buy, pay, amount).value;
            MatchFrom(w, TakerRequest(taker, buy, pay, amount), plan, 0).Ok?
            <==> forall spec <- plan :: 0 < spec.gross
  {
    var plan := QuotedFills(w, buy, pay, amount).value;
    var r := TakerRequest(taker, buy, pay, amount);
    QuotedFillsAreSound(w, buy, pay, amount);
    hide Inv, Surplus, Sound, QuotedFills, MatchFrom;
    if forall spec <- plan :: 0 < spec.gross {
      forall spec <- plan ensures Acceptable(w.book, w.env, taker, Pair(buy, pay), spec) {
        QuotedFillAcceptable(w.book, w.env, taker, Pair(buy, pay), spec);
      }
      AcceptablePlanRuns(w, r, plan, 0);
    }
    if MatchFrom(w, r, plan, 0).Ok? {
      MatchNeedsPayment(w, r, plan, 0);
    }
  }

  /** And when they settle, the taker receives and spends exactly the quoted pair,
      within the budget. */
  lemma QuoteSettlesExactly(w: World, taker: Address, buy: Address, pay: Address, amount: int)
    requires Inv(w.book) && buy != pay && 0 < amount <= I128_MAX
    requires taker != w.book.self && taker != w.book.vault
    requires QuoteFill(w, buy, pay, amount).Ok?
    requires forall spec <- QuotedFills(w, buy, pay, amount).value :: Welcome(w.book, taker, spec)
    requires MatchFrom(w, TakerRequest(taker, buy, pay, amount), QuotedFills(w, buy, pay, amount).value, 0).Ok?
    ensures var (bought, paid) := QuoteFill(w, buy, pay, amount).value;
            var (w', spent) := MatchFrom(w, TakerRequest(taker, buy, pay, amount),
                                         QuotedFills(w, buy, pay, amount).value, 0).value;
            && 0 <= bought && 0 <= paid <= amount && spent == paid
            && Bal(w'.bal, buy, taker) == Bal(w.bal, buy, taker) + bought
            && Bal(w'.bal, pay, taker) == Bal(w.bal, pay, taker) - paid
  {
    var plan := QuotedFills(w, buy, pay, amount).value;
    var r := TakerRequest(taker, buy, pay, amount);
    QuotedFillsAreSound(w, buy, pay, amount);
    assert QuoteFill(w, buy, pay, amount).value == (Taken(plan), Spent(plan));
    hide Inv, Surplus, Sound, QuotedFills, QuoteFill, MatchFrom;
    MatchFromKeeps(w, r, plan, 0);
    MatchFromMoves(w, r, plan, 0, buy, taker);
    MatchFromMoves(w, r, plan, 0, pay, taker);
    NetToStranger(w.book, plan, taker);
  }

  /** An oracle fill whose fair value floors to zero. */
  predicate Dust(o: Order, env: Env, fill: nat) {
    && o.terms.Oracle? && FreshPrice(env, o.Market()).Ok?
    && fill * FreshPrice(env, o.Market()).value.num < FreshPrice(env, o.Market()).value.den
  }

  lemma GrossIsZeroIff(o: Order, env: Env, rate: FeeRate, fill: pos)
    ensures RequiredGross(o, env, rate, fill) == Ok(0) <==> RequiredPayment(o, env, fill) == Ok(0)
  {
    hide RequiredPayment;
    var payment := RequiredPayment(o, env, fill);
    if payment.Ok? {
      CeilGalois(payment.value, FEE_DENOMINATOR, FEE_DENOMINATOR - rate, 0);
      hide Ceil;
    }
  }

  lemma FixedPaymentIsPositive(o: Order, env: Env, fill: pos)
    requires o.terms.Fixed?
    ensures RequiredPayment(o, env, fill) != Ok(0)
  {
    CeilGalois(o.terms.minOut, fill, o.amountIn, 0);
    assert 0 < o.terms.minOut * fill;
    hide Ceil;
  }

  lemma FairIsZeroIff(fill: nat, num: pos, den: pos, slippage: Slippage)
    ensures Ceil(Floor(fill, num, den), BPS_DENOMINATOR - slippage, BPS_DENOMINATOR) == 0 <==> fill * num < den
  {
    var fair := Floor(fill, num, den);
    FloorGalois(fill, num, den, 1);
    CeilGalois(fair, BPS_DENOMINATOR - slippage, BPS_DENOMINATOR, 0);
    hide Floor, Ceil;
    assert 0 < fair ==> 0 < fair * (BPS_DENOMINATOR - slippage);
  }

  lemma OraclePaymentIsZeroIff(o: Order, env: Env, fill: pos)
    requires o.terms.Oracle?
    ensures RequiredPayment(o, env, fill) == Ok(0) <==> Dust(o, env, fill)
  {
    hide FreshPrice, Floor, Ceil;
    if FreshPrice(env, o.Market()).Ok? {
      var price := FreshPrice(env, o.Market()).value;
      FairIsZeroIff(fill, price.num, price.den, o.terms.slippageBps);
      FloorGalois(fill, price.num, price.den, 1);
    }
  }

  /** A positive fill is priced at zero if and only if it is dust: never in Fixed mode. */
  lemma PricedAtZeroIff(o: Order, env: Env, rate: FeeRate, fill: pos)
    ensures RequiredGross(o, env, rate, fill) == Ok(0) <==> Dust(o, env, fill)
  {
    GrossIsZeroIff(o, env, rate, fill);
    hide RequiredPayment, RequiredGross;
    if o.terms.Fixed? {
      FixedPaymentIsPositive(o, env, fill);
    } else {
      OraclePaymentIsZeroIff(o, env, fill);
    }
  }

  /** A Fixed order is never quoted at zero. */
  lemma FixedQuoteIsPaid(book: Book, env: Env, spec: FillSpec)
    requires Sound(book, env, spec) && book.orders[spec.id].terms.Fixed?
    ensures 0 < spec.gross
  {
    PricedAtZeroIff(book.orders[spec.id], env, book.fee, spec.fill);
  }

  /** So a quote replays exactly when none of its fills is oracle dust. */
  lemma QuoteReplaysUnlessDust(w: World, taker: Address, buy: Address, pay: Address, amount: nat)
    requires Inv(w.book) && 0 <= Surplus(w, buy) && buy != pay && amount <= I128_MAX
    requires taker != w.book.self && taker != w.book.vault
    requires QuotedFills(w, buy, pay, amount).Ok?
    requires forall spec <- QuotedFills(w, buy, pay, amount).value :: Welcome(w.book, taker, spec)
    requires Spent(QuotedFills(w, buy, pay, amount).value) <= Bal(w.bal, pay, taker)
    ensures var plan := QuotedFills(w, buy, pay, amount).value;
            MatchFrom(w, TakerRequest(taker, buy, pay, amount), plan, 0).Ok?
            <==> forall spec <- plan :: spec.id in w.book.orders && 0 <= spec.fill
                                        && !Dust(w.book.orders[spec.id], w.env, spec.fill)
  {
    QuotedFillsAreSound(w, buy, pay, amount);
    QuoteReplaysIff(w, taker, buy, pay, amount);
    var plan := QuotedFills(w, buy, pay, amount).value;
    hide Inv, Surplus, QuotedFills, MatchFrom, Dust, RequiredGross, Welcome;
    forall spec <- plan ensures 0 < spec.gross <==> !Dust(w.book.orders[spec.id], w.env, spec.fill) {
      PricedAtZeroIff(w.book.orders[spec.id], w.env, w.book.fee, spec.fill);
      assert 0 <= spec.gross;
    }
  }

  /** A dust remainder is offered for nothing, and then refused at that price. */
  lemma DustIsQuotedFree(w: World, id: nat, taker: Address, budget: nat)
    requires budget <= I128_MAX && id in w.book.orders && 0 < w.book.orders[id].remaining
    requires var o := w.book.orders[id];
             && o.Live() && w.env.now <= o.expiry && Dust(o, w.env, o.remaining)
             && AffordableFill(o, w.env, w.book.fee, budget).Ok?
             && AffordableFill(o, w.env, w.book.fee, budget).value.0 == o.remaining
    ensures Offer(w.book, w.env, id, budget) == Ok(Some(FillSpec(id, w.book.orders[id].remaining, 0)))
    ensures Fill(w, taker, id, w.book.orders[id].remaining, 0).Err?
  {
    PricedAtZeroIff(w.book.orders[id], w.env, w.book.fee, w.book.orders[id].remaining);
    hide RequiredGross, AffordableFill, RequiredPayment, Dust;
  }

  /** A quote from a single order's offer. */
  lemma LastOffer(book: Book, env: Env, ids: seq<nat>, budget: pos, spec: FillSpec)
    requires ids != [] && Offer(book, env, ids[0], budget) == Ok(Some(spec)) && 0 <= spec.gross <= budget
    requires |ids| == 1 || spec.gross == budget
    ensures QuotePlan(book, env, ids, budget) == Ok([spec])
    ensures Taken([spec]) == spec.fill && Spent([spec]) == spec.gross
  {
    hide Offer;
    assert [spec][1..] == [] && [spec] + [] == [spec];
    assert QuotePlan(book, env, ids[1..], budget - spec.gross) == Ok([]);
  }

  /** An oracle order with one unit left, worth half a unit of token_out. */
  function DustOrder(): Order {
    Order(1, Address(3), Address(1), Address(2), 100, 1, Oracle(0, 1), 10, PartialFill, 1, 0, [])
  }

  function DustWorld(): World {
    var book := NewBook(Address(4), Address(5), Address(6), 0);
    var funds := map[(Address(1), Address(4)) := 1, (Address(2), Address(7)) := 10];
    World(Env(1, map[Pair(Address(1), Address(2)) := Price(1, 2, 1)]), funds, Enlist(book, DustOrder()))
  }

  lemma DustWorldSound()
    ensures Inv(DustWorld().book)
    ensures Surplus(DustWorld(), Address(1)) == 0
  {
    NewBookInv(Address(4), Address(5), Address(6), 0);
    EnlistKeeps(NewBook(Address(4), Address(5), Address(6), 0), DustOrder());
    hide Inv, Escrow, NewBook;
  }

  lemma DustWorldOffer(taker: Address)
    ensures var w := DustWorld();
            && Offer(w.book, w.env, 1, 10) == Ok(Some(FillSpec(1, 1, 0)))
            && Fill(w, taker, 1, 1, 0).Err?
  {
    var w, o := DustWorld(), DustOrder();
    assert w.book.orders[1] == o;
    assert FreshPrice(w.env, o.Market()) == Ok(Price(1, 2, 1));
    assert NetBudget(0, 10) == 10 && FairBudget(10, 1) == 10;
    assert Estimate(o, w.env, 0, 10) == Ok(20);
    NeverStepsDown(o, w.env, 0, 10);
    hide Offer, Fill, AffordableFill;
    DustIsQuotedFree(w, 1, taker, 10);
  }

  lemma DustWorldFacts(r: Request)
    requires r == TakerRequest(Address(7), Address(1), Address(2), 10)
    ensures var w := DustWorld();
            && (w.book.self, w.book.vault) == (Address(4), Address(5))
            && w.book.Ids(Pair(Address(1), Address(2))) == [1]
            && Bal(w.bal, Address(2), Address(7)) == 10 && Welcome(w.book, Address(7), FillSpec(1, 1, 0))
            && MatchFrom(w, r, [FillSpec(1, 1, 0)], 0).Err?
  {
  }

  /** quote_fill itself can quote dust: a book in good order, fully escrowed, whose quote
      for a funded taker it welcomes sells one unit for nothing, and cannot be had. */
  lemma DustIsQuoted()
    ensures exists w: World, taker, buy, pay ::
              && Inv(w.book) && 0 <= Surplus(w, buy) && buy != pay
              && taker != w.book.self && taker != w.book.vault && 10 <= Bal(w.bal, pay, taker)
              && QuotedFills(w, buy, pay, 10) == Ok([FillSpec(1, 1, 0)]) && Welcome(w.book, taker, FillSpec(1, 1, 0))
              && QuoteFill(w, buy, pay, 10) == Ok((1, 0))
              && MatchFrom(w, TakerRequest(taker, buy, pay, 10), [FillSpec(1, 1, 0)], 0).Err?
  {
    hide Inv, Surplus, Offer, QuotePlan, Bal, Welcome, MatchFrom, Taken, Spent, DustWorld;
    var w, taker, buy, pay := DustWorld(), Address(7), Address(1), Address(2);
    DustWorldSound();
    DustWorldFacts(TakerRequest(taker, buy, pay, 10));
    DustWorldOffer(taker);
    LastOffer(w.book, w.env, [1], 10, FillSpec(1, 1, 0));
    assert QuotedFills(w, buy, pay, 10) == Ok([FillSpec(1, 1, 0)]);
    assert QuoteFill(w, buy, pay, 10) == Ok((1, 0));
  }

  /** At fixed prices every quote replays. */
  lemma FixedQuoteReplays(w: World, taker: Address, buy: Address, pay: Address, amount: nat)
    requires Inv(w.book) && 0 <= Surplus(w, buy) && buy != pay && amount <= I128_MAX
    requires taker != w.book.self && taker != w.book.vault
    requires QuotedFills(w, buy, pay, amount).Ok?
    requires forall spec <- QuotedFills(w, buy, pay, amount).value ::
               Welcome(w.book, taker, spec) && w.book.orders[spec.id].terms.Fixed?
    requires Spent(QuotedFills(w, buy, pay, amount).value) <= Bal(w.bal, pay, taker)
    ensures MatchFrom(w, TakerRequest(taker, buy, pay, amount), QuotedFills(w, buy, pay, amount).value, 0).Ok?
  {
    hide Inv, Surplus, QuotedFills, MatchFrom, Bal, Spent;
    QuotedFillsAreSound(w, buy, pay, amount);
    QuoteReplaysIff(w, taker, buy, pay, amount);
    forall spec <- QuotedFills(w, buy, pay, amount).value ensures 0 < spec.gross {
      FixedQuoteIsPaid(w.book, w.env, spec);
    }
  }
}
