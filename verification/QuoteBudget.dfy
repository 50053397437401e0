/** How a quote answers a larger budget. The scan takes orders in index order, so one
    more unit can buy less; exactly when it does, and why it never does on a book in
    price order. */
module QuoteBudget {
  import opened Results
  import opened MulDiv
  import opened Chain
  import opened SwapBook
  import opened BookInvariant
  import opened BookCalls
  import opened BookQuote
  import opened BookReplay

  // ─── A quote, order by order ────────────────────────

  predicate Quotable(book: Book, env: Env, ids: seq<nat>, budget: nat) {
    QuotePlan(book, env, ids, budget).Ok?
  }

  /** What a list of orders sells for a budget. */
  function Bought(book: Book, env: Env, ids: seq<nat>, budget: nat): int
    requires Quotable(book, env, ids, budget)
  {
    Taken(QuotePlan(book, env, ids, budget).value)
  }

  /** One order's part of a quote: what it sells, and for how much. */
  datatype Part = Part(fill: int, gross: int)

  function PartOf(book: Book, env: Env, id: nat, budget: nat): Part
    requires Offer(book, env, id, budget).Ok?
  {
    match Offer(book, env, id, budget).value
    case None => Part(0, 0)
    case Some(spec) => Part(spec.fill, spec.gross)
  }

  lemma NothingAffordable(o: Order, env: Env, rate: FeeRate)
    ensures Estimate(o, env, rate, 0) == Ok(0)
            || (Estimate(o, env, rate, 0).Err? && Estimate(o, env, rate, 0).error != Trap)
  {
    FloorOfNothing(FEE_DENOMINATOR - rate, FEE_DENOMINATOR);
    match o.terms
    case Fixed(minOut) =>
      FloorOfNothing(o.amountIn, minOut);
    case Oracle(_, slippage) =>
      FloorOfNothing(BPS_DENOMINATOR, BPS_DENOMINATOR - slippage);
      if FreshPrice(env, o.Market()).Ok? {
        var price := FreshPrice(env, o.Market()).value;
        FloorOfNothing(price.den, price.num);
      }
      hide Floor;
  }

  lemma FloorOfNothing(b: nat, d: pos)
    ensures Floor(0, b, d) == 0
  {
  }

  lemma OfferAtZero(book: Book, env: Env, id: nat)
    ensures Offer(book, env, id, 0) == Ok(None)
  {
    if id in book.orders {
      NothingAffordable(book.orders[id], env, book.fee);
      hide Estimate, RequiredGross;
    }
  }

  /** A quote is its first order's part and the rest's quote on what that leaves. */
  lemma BoughtCons(book: Book, env: Env, ids: seq<nat>, budget: nat)
    requires ids != [] && Quotable(book, env, ids, budget)
    ensures Offer(book, env, ids[0], budget).Ok?
    ensures var part := PartOf(book, env, ids[0], budget);
            && 0 <= part.gross <= budget && Quotable(book, env, ids[1..], budget - part.gross)
            && Bought(book, env, ids, budget) == part.fill + Bought(book, env, ids[1..], budget - part.gross)
  {
    if budget == 0 {
      OfferAtZero(book, env, ids[0]);
      hide Offer;
    } else {
      hide Offer, QuotePlan;
      QuotePlanCons(book, env, ids, budget);
      var offer := Offer(book, env, ids[0], budget).value;
      if offer.Some? {
        var rest := QuotePlan(book, env, ids[1..], budget - offer.value.gross).value;
        assert ([offer.value] + rest)[1..] == rest;
      }
    }
  }

  // ─── Where two budgets part ─────────────────────────

  /** The first order whose part a further unit of budget changes: what it sells more,
      the orders after it, and what is left for them before and after. */
  datatype Parting = Parting(gained: int, later: seq<nat>, before: int, after: int)

  function FirstChange(book: Book, env: Env, ids: seq<nat>, budget: nat): Option<Parting>
    requires Quotable(book, env, ids, budget) && Quotable(book, env, ids, budget + 1)
  {
    if ids == [] then None
    else
      BoughtCons(book, env, ids, budget);
      BoughtCons(book, env, ids, budget + 1);
      var less, more := PartOf(book, env, ids[0], budget), PartOf(book, env, ids[0], budget + 1);
      if less == more then FirstChange(book, env, ids[1..], budget - less.gross)
      else Some(Parting(more.fill - less.fill, ids[1..], budget - less.gross, budget + 1 - more.gross))
  }

  lemma FirstChangeCons(book: Book, env: Env, ids: seq<nat>, budget: nat, less: Part, more: Part)
    requires ids != [] && Quotable(book, env, ids, budget) && Quotable(book, env, ids, budget + 1)
    requires Offer(book, env, ids[0], budget).Ok? && less == PartOf(book, env, ids[0], budget)
    requires Offer(book, env, ids[0], budget + 1).Ok? && more == PartOf(book, env, ids[0], budget + 1)
    ensures less == more ==>
              && 0 <= less.gross <= budget && Quotable(book, env, ids[1..], budget - less.gross)
              && Quotable(book, env, ids[1..], budget - less.gross + 1)
              && FirstChange(book, env, ids, budget) == FirstChange(book, env, ids[1..], budget - less.gross)
    ensures less != more ==>
              FirstChange(book, env, ids, budget)
              == Some(Parting(more.fill - less.fill, ids[1..], budget - less.gross, budget + 1 - more.gross))
  {
    hide Offer, Quotable, Bought, PartOf;
    BoughtCons(book, env, ids, budget);
    BoughtCons(book, env, ids, budget + 1);
  }

  /** On any book the quote changes by what that order gains and what the later orders
      then sell, less what they sold before. */
  lemma {:induction false} QuoteStep(book: Book, env: Env, ids: seq<nat>, budget: nat)
    requires Quotable(book, env, ids, budget) && Quotable(book, env, ids, budget + 1)
    ensures match FirstChange(book, env, ids, budget)
            case None => Bought(book, env, ids, budget + 1) == Bought(book, env, ids, budget)
            case Some(p) =>
              && 0 <= p.before <= budget && 0 <= p.after <= budget + 1
              && Quotable(book, env, p.later, p.before) && Quotable(book, env, p.later, p.after)
              && Bought(book, env, ids, budget + 1) - Bought(book, env, ids, budget)
                 == p.gained + Bought(book, env, p.later, p.after) - Bought(book, env, p.later, p.before)
  {
    hide Offer, Quotable, Bought, PartOf, FirstChange;
    if ids == [] {
      NoChange(book, env, budget);
      NothingBought(book, env, budget);
      NothingBought(book, env, budget + 1);
    } else {
      BoughtCons(book, env, ids, budget);
      BoughtCons(book, env, ids, budget + 1);
      var less, more := PartOf(book, env, ids[0], budget), PartOf(book, env, ids[0], budget + 1);
      FirstChangeCons(book, env, ids, budget, less, more);
      if less == more {
        QuoteStep(book, env, ids[1..], budget - less.gross);
      }
    }
  }

  lemma NoChange(book: Book, env: Env, budget: nat)
    ensures FirstChange(book, env, [], budget) == None
  {
  }

  lemma NothingBought(book: Book, env: Env, budget: nat)
    ensures Quotable(book, env, [], budget) && Bought(book, env, [], budget) == 0
  {
  }

  lemma QuoteIsBought(w: World, buy: Address, pay: Address, amount: nat)
    requires QuoteFill(w, buy, pay, amount).Ok?
    ensures var ids := w.book.Ids(Pair(buy, pay));
            Quotable(w.book, w.env, ids, amount)
            && QuoteFill(w, buy, pay, amount).value.0 == Bought(w.book, w.env, ids, amount)
  {
  }

  /** quote_fill falls with one more unit of budget if and only if the first order whose
      part it changes gains, together with what the later orders then sell, less than
      these had sold. */
  lemma QuoteFallsIff(w: World, buy: Address, pay: Address, amount: nat)
    requires QuoteFill(w, buy, pay, amount).Ok? && QuoteFill(w, buy, pay, amount + 1).Ok?
    ensures var ids := w.book.Ids(Pair(buy, pay));
            && Quotable(w.book, w.env, ids, amount) && Quotable(w.book, w.env, ids, amount + 1)
            && match FirstChange(w.book, w.env, ids, amount)
               case None =>
                 QuoteFill(w, buy, pay, amount + 1).value.0 == QuoteFill(w, buy, pay, amount).value.0
               case Some(p) =>
                 && 0 <= p.before && Quotable(w.book, w.env, p.later, p.before)
                 && 0 <= p.after && Quotable(w.book, w.env, p.later, p.after)
                 && (QuoteFill(w, buy, pay, amount + 1).value.0 < QuoteFill(w, buy, pay, amount).value.0
                     <==> p.gained + Bought(w.book, w.env, p.later, p.after)
                          < Bought(w.book, w.env, p.later, p.before))
  {
    hide QuoteFill, Quotable, Bought, FirstChange;
    QuoteIsBought(w, buy, pay, amount);
    QuoteIsBought(w, buy, pay, amount + 1);
    QuoteStep(w.book, w.env, w.book.Ids(Pair(buy, pay)), amount);
  }

  // ─── Fixed prices ───────────────────────────────────

  /** Can the order contribute to a quote at all? */
  predicate OnOffer(book: Book, env: Env, id: nat) {
    id in book.orders && book.orders[id].Live() && env.now <= book.orders[id].expiry
  }

  /** The listed orders that can, in index order. */
  function OnSale(book: Book, env: Env, ids: seq<nat>): seq<Order> {
    if ids == [] then []
    else (if OnOffer(book, env, ids[0]) then [book.orders[ids[0]]] else []) + OnSale(book, env, ids[1..])
  }

  predicate AllFixed(orders: seq<Order>) {
    orders == [] || (orders[0].terms.Fixed? && AllFixed(orders[1..]))
  }

  lemma OnSaleCons(book: Book, env: Env, ids: seq<nat>)
    requires ids != []
    ensures var rest := OnSale(book, env, ids[1..]);
            if OnOffer(book, env, ids[0])
            then OnSale(book, env, ids) != [] && OnSale(book, env, ids)[0] == book.orders[ids[0]]
                 && OnSale(book, env, ids)[1..] == rest
            else OnSale(book, env, ids) == rest
  {
    hide OnOffer;
    var rest := OnSale(book, env, ids[1..]);
    assert [] + rest == rest;
  }

  lemma FillFits(o: Order, rate: FeeRate, budget: nat)
    requires o.terms.Fixed?
    ensures FixedGross(o, rate, FixedFill(o, rate, budget)) <= budget
  {
    FixedGrossExact(o, rate, FixedFill(o, rate, budget), budget);
    hide Floor, NetBudget, FixedGross;
  }

  /** A further unit changes what a Fixed order sells only if it is spent there, with
      everything else that had reached it. */
  lemma FillStep(o: Order, rate: FeeRate, budget: nat)
    requires o.terms.Fixed?
    ensures var less, more := FixedFill(o, rate, budget), FixedFill(o, rate, budget + 1);
            less == more || (less < more && FixedGross(o, rate, more) == budget + 1)
  {
    var less, more := FixedFill(o, rate, budget), FixedFill(o, rate, budget + 1);
    FixedGrossExact(o, rate, less, budget);
    FixedGrossExact(o, rate, less, budget + 1);
    FixedGrossExact(o, rate, more, budget);
    FixedGrossExact(o, rate, more, budget + 1);
    hide Floor, NetBudget, FixedGross;
  }

  lemma CostOfNothing(o: Order, rate: FeeRate)
    requires o.terms.Fixed?
    ensures FixedGross(o, rate, 0) == 0
  {
    CeilGalois(o.terms.minOut, 0, o.amountIn, 0);
    CeilGalois(0, FEE_DENOMINATOR, FEE_DENOMINATOR - rate, 0);
    hide Ceil;
  }

  /** What the contract offers of an order on sale at a fixed price. */
  lemma FixedPart(book: Book, env: Env, id: nat, budget: nat)
    requires budget <= I128_MAX && Offer(book, env, id, budget).Ok?
    requires OnOffer(book, env, id) ==> book.orders[id].terms.Fixed?
    ensures PartOf(book, env, id, budget)
            == if !OnOffer(book, env, id) then Part(0, 0)
               else var fill := FixedFill(book.orders[id], book.fee, budget);
                    Part(fill, FixedGross(book.orders[id], book.fee, fill))
  {
    if OnOffer(book, env, id) {
      var o := book.orders[id];
      CostOfNothing(o, book.fee);
      NeverStepsDown(o, env, book.fee, budget);
      FixedPrice(o, env, book.fee, FixedFill(o, book.fee, budget));
      hide Floor, NetBudget, FixedGross, RequiredGross, AffordableFill;
    }
  }

  lemma FixedPrice(o: Order, env: Env, rate: FeeRate, units: nat)
    requires o.terms.Fixed? && RequiredGross(o, env, rate, units).Ok?
    ensures RequiredGross(o, env, rate, units) == Ok(FixedGross(o, rate, units))
  {
  }

  lemma OnOfferFixed(book: Book, env: Env, ids: seq<nat>)
    requires ids != [] && AllFixed(OnSale(book, env, ids))
    ensures OnOffer(book, env, ids[0]) ==> book.orders[ids[0]].terms.Fixed?
    ensures AllFixed(OnSale(book, env, ids[1..]))
  {
    OnSaleCons(book, env, ids);
  }

  lemma FixedChangeSpendsAll(book: Book, env: Env, id: nat, budget: nat)
    requires OnOffer(book, env, id) ==> book.orders[id].terms.Fixed?
    requires budget < I128_MAX && Offer(book, env, id, budget).Ok? && Offer(book, env, id, budget + 1).Ok?
    ensures var less, more := PartOf(book, env, id, budget), PartOf(book, env, id, budget + 1);
            less != more ==> less.fill < more.fill && more.gross == budget + 1
  {
    hide Offer, PartOf, FixedFill, FixedGross;
    FixedPart(book, env, id, budget);
    FixedPart(book, env, id, budget + 1);
    if OnOffer(book, env, id) {
      FillStep(book.orders[id], book.fee, budget);
    }
  }

  /** So on a Fixed-price book nothing is left for the later orders. */
  lemma {:induction false} FixedParting(book: Book, env: Env, ids: seq<nat>, budget: nat)
    requires AllFixed(OnSale(book, env, ids)) && budget < I128_MAX
    requires Quotable(book, env, ids, budget) && Quotable(book, env, ids, budget + 1)
    ensures match FirstChange(book, env, ids, budget)
            case None => true
            case Some(p) => 0 < p.gained && p.after == 0
  {
    hide Offer, Quotable, PartOf, Bought, FirstChange, OnSale, OnOffer, FixedFill, FixedGross;
    if ids == [] {
      NoChange(book, env, budget);
    } else {
      OnSaleCons(book, env, ids);
      BoughtCons(book, env, ids, budget);
      BoughtCons(book, env, ids, budget + 1);
      var less, more := PartOf(book, env, ids[0], budget), PartOf(book, env, ids[0], budget + 1);
      FirstChangeCons(book, env, ids, budget, less, more);
      OnOfferFixed(book, env, ids);
      FixedChangeSpendsAll(book, env, ids[0], budget);
      if less == more {
        FixedParting(book, env, ids[1..], budget - less.gross);
      }
    }
  }

  lemma NothingForNothing(book: Book, env: Env, ids: seq<nat>)
    ensures Quotable(book, env, ids, 0) && Bought(book, env, ids, 0) == 0
  {
  }

  /** quote_fill on a Fixed-price book falls with one more unit of budget if and only if
      the first order it lets sell more gains less than the later orders had sold. */
  lemma FixedQuoteFallsIff(w: World, buy: Address, pay: Address, amount: nat)
    requires AllFixed(OnSale(w.book, w.env, w.book.Ids(Pair(buy, pay)))) && amount < I128_MAX
    requires QuoteFill(w, buy, pay, amount).Ok? && QuoteFill(w, buy, pay, amount + 1).Ok?
    ensures var ids := w.book.Ids(Pair(buy, pay));
            && Quotable(w.book, w.env, ids, amount) && Quotable(w.book, w.env, ids, amount + 1)
            && var change := FirstChange(w.book, w.env, ids, amount);
            && (change.Some? ==>
                  0 <= change.value.before && Quotable(w.book, w.env, change.value.later, change.value.before))
            && (QuoteFill(w, buy, pay, amount + 1).value.0 < QuoteFill(w, buy, pay, amount).value.0
                <==> change.Some?
                     && change.value.gained < Bought(w.book, w.env, change.value.later, change.value.before))
  {
    hide QuoteFill, Quotable, Bought, FirstChange, AllFixed, OnSale;
    var ids := w.book.Ids(Pair(buy, pay));
    QuoteFallsIff(w, buy, pay, amount);
    FixedParting(w.book, w.env, ids, amount);
    var change := FirstChange(w.book, w.env, ids, amount);
    if change.Some? {
      NothingForNothing(w.book, w.env, change.value.later);
    }
  }

  // ─── Price order ────────────────────────────────────

  /** What orders at fixed prices sell for a budget, one after the other. */
  function Sold(orders: seq<Order>, rate: FeeRate, budget: nat): nat
    requires AllFixed(orders)
  {
    if orders == [] then 0
    else
      var fill := FixedFill(orders[0], rate, budget);
      FillFits(orders[0], rate, budget);
      fill + Sold(orders[1..], rate, budget - FixedGross(orders[0], rate, fill))
  }

  predicate NoDearer(o: Order, other: Order)
    requires o.terms.Fixed? && other.terms.Fixed?
  {
    o.terms.minOut * other.amountIn <= other.terms.minOut * o.amountIn
  }

  /** No order asks less per unit than this one. */
  predicate CheapestOf(o: Order, orders: seq<Order>)
    requires o.terms.Fixed? && AllFixed(orders)
  {
    orders == [] || (NoDearer(o, orders[0]) && CheapestOf(o, orders[1..]))
  }

  /** The orders are listed from the cheapest to the dearest. */
  predicate ByPrice(orders: seq<Order>)
    requires AllFixed(orders)
  {
    orders == [] || (CheapestOf(orders[0], orders[1..]) && ByPrice(orders[1..]))
  }

  /** What an order's part takes for some units, before the fee. */
  function NetOf(o: Order, units: nat): nat
    requires o.terms.Fixed?
  {
    Ceil(o.terms.minOut, units, o.amountIn)
  }

  lemma GrossMonotone(rate: FeeRate, less: nat, more: nat)
    requires less <= more
    ensures GrossForNet(rate, less) <= GrossForNet(rate, more)
  {
    CeilMonotone(less, more, FEE_DENOMINATOR, FEE_DENOMINATOR - rate);
    hide Ceil;
  }

  lemma NetSubadditive(o: Order, x: nat, y: nat)
    requires o.terms.Fixed?
    ensures NetOf(o, x + y) <= NetOf(o, x) + NetOf(o, y)
  {
    var p, d := o.terms.minOut, o.amountIn;
    CeilSwap(p, x, d);
    CeilSwap(p, y, d);
    CeilSwap(p, x + y, d);
    hide Ceil;
    CeilSubadditive(x, y, p, d);
  }

  lemma CostSubadditive(o: Order, rate: FeeRate, x: nat, y: nat)
    requires o.terms.Fixed?
    ensures FixedGross(o, rate, x + y) <= FixedGross(o, rate, x) + FixedGross(o, rate, y)
  {
    hide Ceil;
    NetSubadditive(o, x, y);
    GrossMonotone(rate, NetOf(o, x + y), NetOf(o, x) + NetOf(o, y));
    CeilSubadditive(NetOf(o, x), NetOf(o, y), FEE_DENOMINATOR, FEE_DENOMINATOR - rate);
  }

  lemma CostGrows(o: Order, rate: FeeRate, less: nat, more: nat)
    requires o.terms.Fixed? && less <= more
    ensures FixedGross(o, rate, less) <= FixedGross(o, rate, more)
  {
    CeilSwap(o.terms.minOut, less, o.amountIn);
    CeilSwap(o.terms.minOut, more, o.amountIn);
    hide Ceil;
    CeilMonotone(less, more, o.terms.minOut, o.amountIn);
    GrossMonotone(rate, NetOf(o, less), NetOf(o, more));
  }

  lemma CheaperNet(o: Order, other: Order, units: nat)
    requires o.terms.Fixed? && other.terms.Fixed? && NoDearer(o, other)
    ensures NetOf(o, units) <= NetOf(other, units)
  {
    hide Ceil;
    var net := NetOf(other, units);
    CeilBounds(other.terms.minOut, units, other.amountIn);
    CrossPrice(o.terms.minOut, o.amountIn, other.terms.minOut, other.amountIn, units, net);
    CeilGalois(o.terms.minOut, units, o.amountIn, net);
  }

  lemma CheaperCostsLess(o: Order, other: Order, rate: FeeRate, units: nat)
    requires o.terms.Fixed? && other.terms.Fixed? && NoDearer(o, other)
    ensures FixedGross(o, rate, units) <= FixedGross(other, rate, units)
  {
    hide Ceil, NoDearer;
    CheaperNet(o, other, units);
    GrossMonotone(rate, NetOf(o, units), NetOf(other, units));
  }

  lemma CrossPrice(p: nat, a: pos, p': nat, a': pos, n: nat, net: nat)
    requires p * a' <= p' * a && p' * n <= net * a'
    ensures p * n <= net * a
  {
    ScaleUp(p * a', p' * a, n);
    ScaleUp(p' * n, net * a', a);
    assert p * a' * n == p * n * a' && p' * a * n == p' * n * a && net * a' * a == net * a * a';
    ScaleDown(p * n, net * a, a');
  }

  lemma ScaleUp(x: int, y: int, d: nat)
    requires x <= y
    ensures x * d <= y * d
  {
  }

  lemma ScaleDown(x: int, y: int, d: pos)
    requires x * d <= y * d
    ensures x <= y
  {
  }

  /** Orders no cheaper than `o` cannot sell more for a budget than it would: their whole
      sale would cost no more at its price. */
  lemma {:induction false} SaleCostsLessAt(o: Order, orders: seq<Order>, rate: FeeRate, budget: nat)
    requires o.terms.Fixed? && AllFixed(orders) && CheapestOf(o, orders)
    ensures FixedGross(o, rate, Sold(orders, rate, budget)) <= budget
  {
    hide FixedGross, FixedFill, NoDearer;
    if orders == [] {
      CostOfNothing(o, rate);
    } else {
      var head, fill := orders[0], FixedFill(orders[0], rate, budget);
      var left := budget - FixedGross(head, rate, fill);
      FillFits(head, rate, budget);
      SaleCostsLessAt(o, orders[1..], rate, left);
      CheaperCostsLess(o, head, rate, fill);
      CostSubadditive(o, rate, fill, Sold(orders[1..], rate, left));
    }
  }

  /** The unit that lets an order sell more takes from later, dearer orders less than it
      gives: they could not have sold as much for what it left. */
  lemma DearerSellLess(o: Order, later: seq<Order>, rate: FeeRate, budget: nat)
    requires o.terms.Fixed? && AllFixed(later) && CheapestOf(o, later)
    requires FixedFill(o, rate, budget) != FixedFill(o, rate, budget + 1)
    ensures FixedGross(o, rate, FixedFill(o, rate, budget)) <= budget
    ensures Sold(later, rate, budget - FixedGross(o, rate, FixedFill(o, rate, budget)))
            < FixedFill(o, rate, budget + 1) - FixedFill(o, rate, budget)
  {
    hide FixedGross, FixedFill, CheapestOf, Sold;
    var less, more := FixedFill(o, rate, budget), FixedFill(o, rate, budget + 1);
    FillFits(o, rate, budget);
    FillStep(o, rate, budget);
    var gained, lost := more - less, Sold(later, rate, budget - FixedGross(o, rate, less));
    SaleCostsLessAt(o, later, rate, budget - FixedGross(o, rate, less));
    CostSubadditive(o, rate, less, gained);
    assert less + gained == more;
    if gained <= lost {
      CostGrows(o, rate, gained, lost);
    }
  }

  lemma {:induction false} NothingSold(orders: seq<Order>, rate: FeeRate)
    requires AllFixed(orders)
    ensures Sold(orders, rate, 0) == 0
  {
    if orders != [] {
      FillFits(orders[0], rate, 0);
      NothingFilled(orders[0], rate);
      hide FixedFill, FixedGross;
      NothingSold(orders[1..], rate);
    }
  }

  lemma NothingFilled(o: Order, rate: FeeRate)
    requires o.terms.Fixed?
    ensures FixedFill(o, rate, 0) == 0
  {
    FloorGalois(0, FEE_DENOMINATOR - rate, FEE_DENOMINATOR, 1);
    FloorGalois(0, o.amountIn, o.terms.minOut, 1);
    hide Floor;
  }

  lemma {:induction false} SoldStep(orders: seq<Order>, rate: FeeRate, budget: nat)
    requires AllFixed(orders) && ByPrice(orders)
    ensures Sold(orders, rate, budget) <= Sold(orders, rate, budget + 1)
  {
    hide FixedFill, FixedGross, CheapestOf;
    if orders != [] {
      var o, later := orders[0], orders[1..];
      var less, more := FixedFill(o, rate, budget), FixedFill(o, rate, budget + 1);
      FillFits(o, rate, budget);
      FillFits(o, rate, budget + 1);
      FillStep(o, rate, budget);
      if less == more {
        SoldStep(later, rate, budget - FixedGross(o, rate, less));
      } else {
        DearerSellLess(o, later, rate, budget);
        NothingSold(later, rate);
      }
    }
  }

  lemma {:induction false} SoldGrows(orders: seq<Order>, rate: FeeRate, less: nat, more: nat)
    requires AllFixed(orders) && ByPrice(orders) && less <= more
    ensures Sold(orders, rate, less) <= Sold(orders, rate, more)
    decreases more - less
  {
    hide Sold, AllFixed, ByPrice;
    if less < more {
      SoldGrows(orders, rate, less, more - 1);
      SoldStep(orders, rate, more - 1);
    }
  }

  /** quote_fill on a Fixed-price book is that sale. */
  lemma {:induction false} BoughtIsSold(book: Book, env: Env, ids: seq<nat>, budget: nat)
    requires AllFixed(OnSale(book, env, ids)) && budget <= I128_MAX && Quotable(book, env, ids, budget)
    ensures Bought(book, env, ids, budget) == Sold(OnSale(book, env, ids), book.fee, budget)
  {
    if ids != [] {
      hide Offer, PartOf, OnOffer, FixedFill, FixedGross, Quotable, Bought, OnSale;
      OnSaleCons(book, env, ids);
      BoughtCons(book, env, ids, budget);
      FixedPart(book, env, ids[0], budget);
      BoughtIsSold(book, env, ids[1..], budget - PartOf(book, env, ids[0], budget).gross);
    }
  }

  /** On a Fixed-price book listed in price order quote_fill never buys less with more. */
  lemma OrderedQuoteGrows(w: World, buy: Address, pay: Address, less: nat, more: nat)
    requires less <= more <= I128_MAX
    requires var orders := OnSale(w.book, w.env, w.book.Ids(Pair(buy, pay)));
             AllFixed(orders) && ByPrice(orders)
    requires QuoteFill(w, buy, pay, less).Ok? && QuoteFill(w, buy, pay, more).Ok?
    ensures QuoteFill(w, buy, pay, less).value.0 <= QuoteFill(w, buy, pay, more).value.0
  {
    hide QuoteFill, AllFixed, ByPrice, OnSale, Sold, Bought, Quotable;
    var ids := w.book.Ids(Pair(buy, pay));
    QuoteIsBought(w, buy, pay, less);
    QuoteIsBought(w, buy, pay, more);
    BoughtIsSold(w.book, w.env, ids, less);
    BoughtIsSold(w.book, w.env, ids, more);
    SoldGrows(OnSale(w.book, w.env, ids), w.book.fee, less, more);
  }

  // ─── A larger budget can buy less ───────────────────

  /** A resting order that asks `price` per unit for `units`. */
  function Asks(id: nat, units: pos, price: pos): Order {
    Order(id, Address(3), Address(1), Address(2), units, units, Fixed(units * price), 10, Open, 1, 0, [])
  }

  lemma AskOffers(book: Book, env: Env, id: nat, units: pos, price: pos, budget: nat)
    requires id in book.orders && book.orders[id] == Asks(id, units, price) && book.fee == 0 && env.now <= 10
    requires budget <= I128_MAX
    ensures var fill := Min(budget / price, units);
            Offer(book, env, id, budget) == Ok(if fill == 0 then None else Some(FillSpec(id, fill, fill * price)))
  {
    var o := Asks(id, units, price);
    var fill := Min(budget / price, units);
    assert NetBudget(0, budget) == budget;
    DivCancel(budget, price, units);
    assert Estimate(o, env, 0, budget) == Ok(budget / price);
    NeverStepsDown(o, env, 0, budget);
    CeilExact(fill * price, units);
    assert units * price * fill == fill * price * units;
    assert RequiredPayment(o, env, fill) == Ok(fill * price);
    assert GrossForNet(0, fill * price) == fill * price;
  }

  lemma DivCancel(budget: nat, price: pos, units: pos)
    ensures Floor(budget, units, units * price) == budget / price
  {
    var q := budget / price;
    assert q * price <= budget < (q + 1) * price;
    assert q * (units * price) == q * price * units;
    assert (q + 1) * (units * price) == (q + 1) * price * units;
    FloorGalois(budget, units, units * price, q);
    FloorGalois(budget, units, units * price, q + 1);
  }

  lemma CeilExact(x: nat, d: pos)
    ensures Ceil(x, d, d) == x
  {
    CeilGalois(x, d, d, x);
    CeilGalois(x, d, d, x - 1);
  }

  lemma NoOffer(book: Book, env: Env, ids: seq<nat>, budget: pos)
    requires ids != [] && Offer(book, env, ids[0], budget) == Ok(None)
    ensures QuotePlan(book, env, ids, budget) == QuotePlan(book, env, ids[1..], budget)
  {
    hide Offer;
  }

  lemma DearFirst(w: World, buy: Address, pay: Address)
    requires w.book.Ids(Pair(buy, pay)) == [1, 2] && w.book.fee == 0 && w.env.now <= 10
    requires 1 in w.book.orders && w.book.orders[1] == Asks(1, 1, 10)
    requires 2 in w.book.orders && w.book.orders[2] == Asks(2, 100, 1)
    ensures QuoteFill(w, buy, pay, 9) == Ok((9, 9)) && QuoteFill(w, buy, pay, 10) == Ok((1, 10))
  {
    hide Offer, Asks, QuotePlan, Taken, Spent;
    AskOffers(w.book, w.env, 1, 1, 10, 9);
    AskOffers(w.book, w.env, 2, 100, 1, 9);
    AskOffers(w.book, w.env, 1, 1, 10, 10);
    assert [1, 2][1..] == [2];
    NoOffer(w.book, w.env, [1, 2], 9);
    LastOffer(w.book, w.env, [2], 9, FillSpec(2, 9, 9));
    LastOffer(w.book, w.env, [1, 2], 10, FillSpec(1, 1, 10));
  }

  function DearFirstWorld(): World {
    var book := NewBook(Address(4), Address(5), Address(6), 0);
    World(Env(1, map[]), map[(Address(1), Address(4)) := 101], Enlist(Enlist(book, Asks(1, 1, 10)), Asks(2, 100, 1)))
  }

  lemma DearFirstSound()
    ensures Inv(DearFirstWorld().book) && Surplus(DearFirstWorld(), Address(1)) == 0
  {
    var book := NewBook(Address(4), Address(5), Address(6), 0);
    NewBookInv(Address(4), Address(5), Address(6), 0);
    EnlistKeeps(book, Asks(1, 1, 10));
    EnlistKeeps(Enlist(book, Asks(1, 1, 10)), Asks(2, 100, 1));
    hide Inv, Escrow;
  }

  /** Because the scan takes orders in index order, not price order, one more unit of
      budget can buy less: it reaches the dear order listed first. */
  lemma LargerBudgetCanBuyLess()
    ensures exists w: World, buy, pay, amount: int ::
              && Inv(w.book) && 0 <= Surplus(w, buy) && buy != pay
              && QuoteFill(w, buy, pay, amount).Ok? && QuoteFill(w, buy, pay, amount + 1).Ok?
              && QuoteFill(w, buy, pay, amount + 1).value.0 < QuoteFill(w, buy, pay, amount).value.0
  {
    var w, buy, pay := DearFirstWorld(), Address(1), Address(2);
    DearFirstSound();
    assert w.book.Ids(Pair(buy, pay)) == [1, 2];
    assert w.book.orders[1] == Asks(1, 1, 10) && w.book.orders[2] == Asks(2, 100, 1);
    hide QuoteFill, Asks, Inv, Surplus, DearFirstWorld;
    DearFirst(w, buy, pay);
    assert QuoteFill(w, buy, pay, 9 + 1).value.0 < QuoteFill(w, buy, pay, 9).value.0;
  }
}
