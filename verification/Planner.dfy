/** The backend's book planner: which resting orders a taker should fill, and for
    what gross payment, before the contract is called. It assumes the highest fee
    the contract can be set to, and it does not look at order expiry. */
module Planner {
  import opened Results
  import opened MulDiv
  import opened Chain
  import opened SwapBook
  import opened BookInvariant
  import opened BookCalls
  import opened BookQuote
  import opened BookReplay

  /** The planner's compiled-in fee: the contract's cap. */
  const SWAPBOOK_FEE_PER_100K: FeeRate := 5

  /** What the maker of a Fixed order must net for part of it. */
  function NetFloor(o: Order, fill: nat): nat
    requires o.terms.Fixed?
  {
    Ceil(o.terms.minOut, fill, o.amountIn)
  }

  function Cost(o: Order, fill: nat): nat
    requires o.terms.Fixed?
  {
    FixedGross(o, SWAPBOOK_FEE_PER_100K, fill)
  }

  /** The fill planned on one order: all of it if the budget covers that, else the
      part the budget inverts to. */
  function PlannedFill(o: Order, budget: nat): (fill: nat)
    requires o.terms.Fixed?
  {
    if Cost(o, o.remaining) <= budget then o.remaining
    else FixedFill(o, SWAPBOOK_FEE_PER_100K, budget)
  }

  /** The fills planned on a list of candidates. */
  function Planned(orders: seq<Order>, budget: nat): seq<FillSpec>
    requires forall o <- orders :: o.terms.Fixed?
  {
    if orders == [] || budget == 0 then []
    else
      var o := orders[0];
      var fill := PlannedFill(o, budget);
      if fill == 0 then Planned(orders[1..], budget)
      else
        PlannedFillAffordable(o, budget);
        [FillSpec(o.id, fill, Cost(o, fill))] + Planned(orders[1..], budget - Cost(o, fill))
  }

  /** A part costs no more than the budget exactly up to the inverted budget. */
  lemma CostExact(o: Order, fill: nat, budget: nat)
    requires o.terms.Fixed?
    ensures Cost(o, fill) <= budget
            <==> fill <= Floor(NetBudget(SWAPBOOK_FEE_PER_100K, budget), o.amountIn, o.terms.minOut)
  {
    FixedGrossExact(o, SWAPBOOK_FEE_PER_100K, fill, budget);
  }

  lemma PlannedFillAffordable(o: Order, budget: nat)
    requires o.terms.Fixed?
    ensures Cost(o, PlannedFill(o, budget)) <= budget && PlannedFill(o, budget) <= o.remaining
  {
    CostExact(o, PlannedFill(o, budget), budget);
  }

  // ─── The code ───────────────────────────────────────

  /** grossForNet: the correction loop never runs. */
  method ComputeGross(net: int) returns (g: int, ghost corrections: int)
    ensures g == if net < 0 then 0 else GrossForNet(SWAPBOOK_FEE_PER_100K, net)
    ensures corrections == 0
  {
    corrections := 0;
    if net <= 0 {
      return 0, 0;
    }
    g := Ceil(net, FEE_DENOMINATOR, FEE_DENOMINATOR - SWAPBOOK_FEE_PER_100K);
    ghost var first := g;
    while g - Ceil(g, SWAPBOOK_FEE_PER_100K, FEE_DENOMINATOR) < net
      invariant 0 <= first <= g && corrections == g - first
      invariant first < g ==> first - Ceil(first, SWAPBOOK_FEE_PER_100K, FEE_DENOMINATOR) < net
      decreases 2 * net + 2 - g
    {
      g := g + 1;
      corrections := corrections + 1;
    }
    GrossIsLeast(SWAPBOOK_FEE_PER_100K, net, first);
  }

  /** The partial branch for one order: the step-down loop never decrements. */
  method ComputePart(o: Order, budget: nat) returns (fillable: int, cost: int, ghost corrections: int)
    requires o.terms.Fixed? && budget < Cost(o, o.remaining)
    ensures fillable == PlannedFill(o, budget) && cost == (if fillable == 0 then 0 else Cost(o, fillable))
    ensures corrections == 0
  {
    var netBudget := Floor(budget, FEE_DENOMINATOR - SWAPBOOK_FEE_PER_100K, FEE_DENOMINATOR);
    fillable := Floor(netBudget, o.amountIn, o.terms.minOut);
    if o.remaining < fillable {
      fillable := o.remaining;
    }
    ghost var first := fillable;
    corrections, cost := 0, 0;
    while 0 < fillable
      invariant 0 <= fillable <= first && corrections == first - fillable
      invariant fillable < first ==> budget < Cost(o, first)
    {
      var c, steps := ComputeGross(Ceil(o.terms.minOut, fillable, o.amountIn));
      corrections := corrections + steps;
      if c <= budget {
        cost := c;
        break;
      }
      fillable := fillable - 1;
      corrections := corrections + 1;
    }
    CostExact(o, first, budget);
  }

  /** Which fetched orders the planner considers: open Fixed orders this taker may
      fill, organic makers first and protocol-operated wallets last. */
  predicate Candidate(o: Order, taker: Address) {
    o.Live() && o.terms.Fixed? && o.maker != taker && taker !in o.excluded
  }

  function Filtered(orders: seq<Order>, keep: Order -> bool): seq<Order> {
    if orders == [] then []
    else (if keep(orders[0]) then [orders[0]] else []) + Filtered(orders[1..], keep)
  }

  function Candidates(orders: seq<Order>, taker: Address, wallets: set<Address>): seq<Order> {
    Filtered(orders, (o: Order) => Candidate(o, taker) && o.maker !in wallets)
    + Filtered(orders, (o: Order) => Candidate(o, taker) && o.maker in wallets)
  }

  lemma {:induction false} FilteredKeeps(orders: seq<Order>, keep: Order -> bool)
    ensures forall o :: o in Filtered(orders, keep) <==> o in orders && keep(o)
  {
    if orders != [] {
      FilteredKeeps(orders[1..], keep);
    }
  }

  /** Every order the taker may fill is a candidate; organic makers come first, protocol-
      operated wallets after all of them. */
  lemma CandidatesInOrder(orders: seq<Order>, taker: Address, wallets: set<Address>)
    ensures var list := Candidates(orders, taker, wallets);
            && (forall o :: o in list <==> o in orders && Candidate(o, taker))
            && (forall i, j :: 0 <= i < j < |list| && list[i].maker in wallets ==> list[j].maker in wallets)
  {
    hide Candidate, Filtered;
    var organic := (o: Order) => Candidate(o, taker) && o.maker !in wallets;
    var operated := (o: Order) => Candidate(o, taker) && o.maker in wallets;
    var first, last := Filtered(orders, organic), Filtered(orders, operated);
    FilteredKeeps(orders, organic);
    FilteredKeeps(orders, operated);
    var list := Candidates(orders, taker, wallets);
    assert list == first + last;
    forall i | 0 <= i < |list| ensures list[i].maker in wallets <==> |first| <= i {
      if i < |first| {
        assert first[i] in first;
      } else {
        assert last[i - |first|] in last;
      }
    }
  }

  /** And within each kind the fetched order stays. */
  lemma CandidatesKeepOrder(orders: seq<Order>, taker: Address, wallets: set<Address>)
    ensures Filtered(Candidates(orders, taker, wallets), (o: Order) => o.maker !in wallets)
            == Filtered(orders, (o: Order) => Candidate(o, taker) && o.maker !in wallets)
    ensures Filtered(Candidates(orders, taker, wallets), (o: Order) => o.maker in wallets)
            == Filtered(orders, (o: Order) => Candidate(o, taker) && o.maker in wallets)
  {
    hide Candidate, Filtered;
    var organic := (o: Order) => Candidate(o, taker) && o.maker !in wallets;
    var operated := (o: Order) => Candidate(o, taker) && o.maker in wallets;
    FilteredKeeps(orders, organic);
    FilteredKeeps(orders, operated);
    var first, last := Filtered(orders, organic), Filtered(orders, operated);
    FilteredSplit(first, last, (o: Order) => o.maker !in wallets);
    FilteredSplit(last, first, (o: Order) => o.maker in wallets);
  }

  /** Filtering two lists of which one is kept and the other dropped. */
  lemma FilteredSplit(kept: seq<Order>, dropped: seq<Order>, keep: Order -> bool)
    requires (forall o <- kept :: keep(o)) && forall o <- dropped :: !keep(o)
    ensures Filtered(kept + dropped, keep) == kept && Filtered(dropped + kept, keep) == kept
  {
    hide Filtered;
    FilteredAll(kept, keep);
    FilteredAll(dropped, keep);
    FilteredAppend(kept, dropped, keep);
    FilteredAppend(dropped, kept, keep);
    assert kept + [] == kept && [] + kept == kept;
  }

  lemma FilteredCons(o: Order, s: seq<Order>, keep: Order -> bool)
    ensures Filtered([o] + s, keep) == (if keep(o) then [o] else []) + Filtered(s, keep)
  {
    assert ([o] + s)[1..] == s;
  }

  lemma FilteredNone(keep: Order -> bool)
    ensures Filtered([], keep) == []
  {
  }

  lemma {:induction false} FilteredAppend(a: seq<Order>, b: seq<Order>, keep: Order -> bool)
    ensures Filtered(a + b, keep) == Filtered(a, keep) + Filtered(b, keep)
  {
    hide Filtered;
    if a == [] {
      FilteredNone(keep);
      assert [] + b == b && [] + Filtered(b, keep) == Filtered(b, keep);
    } else {
      var o, tail := a[0], a[1..];
      assert a == [o] + tail && a + b == [o] + (tail + b);
      FilteredCons(o, tail, keep);
      FilteredCons(o, tail + b, keep);
      FilteredAppend(tail, b, keep);
    }
  }

  /** planBookFills on the ordered candidates. */
  method PlanBookFills(orders: seq<Order>, amountIn: nat)
    returns (fills: seq<FillSpec>, amountToSit: int, ghost corrections: int)
    requires forall o <- orders :: o.terms.Fixed?
    ensures fills == Planned(orders, amountIn)
    ensures amountToSit == amountIn - Spent(fills)
    ensures corrections == 0
  {
    hide GrossForNet, Ceil, Floor, NetBudget, Planned, Spent;
    var budget: nat := amountIn;
    fills, corrections := [], 0;
    var i := 0;
    assert orders[0..] == orders;
    EmptyPlan();
    while i < |orders| && 0 < budget
      invariant 0 <= i <= |orders| && corrections == 0
      invariant Spent(fills) + budget == amountIn
      invariant Planned(orders, amountIn) == fills + Planned(orders[i..], budget)
    {
      var o := orders[i];
      assert orders[i..][0] == o && orders[i..][1..] == orders[i + 1..];
      PlannedCons(orders[i..], budget);
      i := i + 1;
      if o.remaining == 0 {
        continue;
      }
      var fullCost, steps := ComputeGross(Ceil(o.terms.minOut, o.remaining, o.amountIn));
      corrections := corrections + steps;
      var fill, cost := o.remaining, fullCost;
      if budget < fullCost {
        fill, cost, steps := ComputePart(o, budget);
        corrections := corrections + steps;
      }
      if 0 < fill {
        PlanAppend(fills, FillSpec(o.id, fill, cost));
        fills := fills + [FillSpec(o.id, fill, cost)];
        budget := budget - cost;
      }
    }
    PlannedDone(orders[i..], budget);
    amountToSit := budget;
  }

  /** Planning takes its candidates one at a time. */
  lemma PlannedCons(orders: seq<Order>, budget: nat)
    requires orders != [] && 0 < budget && forall o <- orders :: o.terms.Fixed?
    ensures var o := orders[0];
            var fill := PlannedFill(o, budget);
            var cost := if fill == 0 then 0 else Cost(o, fill);
            && fill <= o.remaining && cost <= budget
            && Planned(orders, budget)
               == (if fill == 0 then [] else [FillSpec(o.id, fill, cost)]) + Planned(orders[1..], budget - cost)
  {
    PlannedFillAffordable(orders[0], budget);
  }

  /** A plan never spends more than its budget. */
  lemma {:induction false} PlannedWithinBudget(orders: seq<Order>, budget: nat)
    requires forall o <- orders :: o.terms.Fixed?
    ensures 0 <= Spent(Planned(orders, budget)) <= budget
  {
    if orders != [] && budget != 0 {
      var o := orders[0];
      PlannedFillAffordable(o, budget);
      var fill := PlannedFill(o, budget);
      PlannedWithinBudget(orders[1..], budget - if fill == 0 then 0 else Cost(o, fill));
    }
  }

  /** A positive part of the order, for a payment that covers its floor after the fee. */
  predicate MeetsFloor(o: Order, rate: FeeRate, spec: FillSpec) {
    && o.terms.Fixed? && spec.id == o.id && 0 < spec.fill <= o.remaining && 0 < spec.gross
    && 0 < NetFloor(o, spec.fill) <= spec.gross - Fee(rate, spec.gross)
  }

  /** Every planned fill is a positive part of a candidate at a gross price that
      still meets its floor at whatever fee the contract charges. */
  lemma {:induction false} PlannedFillsMeetFloors(orders: seq<Order>, budget: nat, rate: FeeRate)
    requires forall o <- orders :: o.terms.Fixed?
    ensures forall spec <- Planned(orders, budget) :: exists o <- orders :: MeetsFloor(o, rate, spec)
  {
    if orders != [] && budget != 0 {
      var o := orders[0];
      PlannedFillAffordable(o, budget);
      var fill := PlannedFill(o, budget);
      var rest := Planned(orders[1..], budget - if fill == 0 then 0 else Cost(o, fill));
      PlannedFillsMeetFloors(orders[1..], budget - if fill == 0 then 0 else Cost(o, fill), rate);
      if 0 < fill {
        CostCoversFloor(o, fill, rate);
      }
      assert o in orders && forall x <- orders[1..] :: x in orders;
    }
  }

  /** A payment sized for the capped fee covers the floor at any lower fee. */
  lemma CostCoversFloor(o: Order, fill: nat, rate: FeeRate)
    requires o.terms.Fixed? && 0 < fill
    ensures 0 < NetFloor(o, fill) <= Cost(o, fill) - Fee(rate, Cost(o, fill))
  {
    var net, gross := NetFloor(o, fill), Cost(o, fill);
    assert 0 < o.terms.minOut * fill;
    CeilGalois(o.terms.minOut, fill, o.amountIn, 0);
    GrossIsLeast(SWAPBOOK_FEE_PER_100K, net, gross);
    FeeGrowsWithRate(rate, SWAPBOOK_FEE_PER_100K, gross);
    hide Ceil, Fee, GrossForNet;
  }

  lemma FeeGrowsWithRate(rate: FeeRate, higher: FeeRate, amount: nat)
    requires rate <= higher
    ensures Fee(rate, amount) <= Fee(higher, amount)
  {
    CeilSwap(amount, rate, FEE_DENOMINATOR);
    CeilSwap(amount, higher, FEE_DENOMINATOR);
    hide Ceil;
    CeilMonotone(rate, higher, amount, FEE_DENOMINATOR);
  }

  ghost predicate Unique(orders: seq<Order>) {
    forall i, j :: 0 <= i < j < |orders| ==> orders[i].id != orders[j].id
  }

  function IdsOf(orders: seq<Order>): seq<nat> {
    seq(|orders|, i requires 0 <= i < |orders| => orders[i].id)
  }

  /** The candidates as the contract stores them. */
  ghost predicate Fetched(book: Book, taker: Address, market: Pair, orders: seq<Order>) {
    && (forall o <- orders ::
          o.id in book.orders && book.orders[o.id] == o && o.Market() == market && Candidate(o, taker))
    && Unique(orders)
  }

  /** Each candidate is planned at most once. */
  lemma {:induction false} PlannedDistinct(orders: seq<Order>, budget: nat)
    requires Unique(orders) && forall o <- orders :: o.terms.Fixed?
    ensures Distinct(Planned(orders, budget))
    ensures forall spec <- Planned(orders, budget) :: spec.id in IdsOf(orders)
  {
    if orders != [] && budget != 0 {
      PlannedCons(orders, budget);
      UniqueTail(orders);
      hide Planned, PlannedFill, Cost, IdsOf, Unique;
      var fill := PlannedFill(orders[0], budget);
      PlannedDistinct(orders[1..], budget - if fill == 0 then 0 else Cost(orders[0], fill));
    }
  }

  lemma UniqueTail(orders: seq<Order>)
    requires Unique(orders) && orders != []
    ensures Unique(orders[1..]) && orders[0].id !in IdsOf(orders[1..])
    ensures IdsOf(orders) == [orders[0].id] + IdsOf(orders[1..])
  {
    var tail := orders[1..];
    assert forall i :: 0 <= i < |tail| ==> tail[i] == orders[i + 1];
  }

  lemma PlannedFillAcceptable(book: Book, env: Env, taker: Address, market: Pair, o: Order, spec: FillSpec)
    requires o.id in book.orders && book.orders[o.id] == o && o.Market() == market && Candidate(o, taker)
    requires env.now <= o.expiry && MeetsFloor(o, book.fee, spec)
    ensures Acceptable(book, env, taker, market, spec)
  {
    FloorMeansPrice(o, env, spec.fill, spec.gross - Fee(book.fee, spec.gross));
  }

  /** No planned fill names an order whose expiry has passed, though the planner itself
      does not look. */
  predicate Unlapsed(w: World, plan: seq<FillSpec>) {
    forall spec <- plan :: spec.id in w.book.orders && w.env.now <= w.book.orders[spec.id].expiry
  }

  /** A plan made from the book as it stands runs to the end in match_and_place, at
      whatever fee the contract charges, if and only if none of the orders it reached
      has lapsed. */
  lemma PlannedFillsAccepted(w: World, r: Request, orders: seq<Order>)
    requires Inv(w.book) && 0 <= Surplus(w, r.tokenOut) && r.tokenIn != r.tokenOut
    requires r.maker != w.book.self && r.maker != w.book.vault
    requires Fetched(w.book, r.maker, Pair(r.tokenOut, r.tokenIn), orders)
    requires 0 < r.amountIn <= I128_MAX && r.amountIn <= Bal(w.bal, r.tokenIn, r.maker)
    ensures MatchFrom(w, r, Planned(orders, r.amountIn), 0).Ok? <==> Unlapsed(w, Planned(orders, r.amountIn))
  {
    var market, plan := Pair(r.tokenOut, r.tokenIn), Planned(orders, r.amountIn);
    PlannedWithinBudget(orders, r.amountIn);
    PlannedDistinct(orders, r.amountIn);
    PlannedFillsMeetFloors(orders, r.amountIn, w.book.fee);
    hide Inv, Surplus, Planned, MatchFrom, Acceptable, Unique, Spent, Fee, NetFloor;
    if MatchFrom(w, r, plan, 0).Ok? {
      MatchNeedsUnlapsed(w, r, plan, 0);
    }
    if Unlapsed(w, plan) {
      forall spec <- plan ensures Acceptable(w.book, w.env, r.maker, market, spec) {
        var o :| o in orders && MeetsFloor(o, w.book.fee, spec);
        PlannedFillAcceptable(w.book, w.env, r.maker, market, o, spec);
      }
      AcceptablePlanRuns(w, r, plan, 0);
    }
  }

  /** On a fixed-price, unlapsed order at the capped fee the planner and the
      contract offer the same fill at the same price. */
  lemma PlannerAgreesOnOrder(book: Book, env: Env, o: Order, budget: nat)
    requires book.fee == SWAPBOOK_FEE_PER_100K && budget <= I128_MAX
    requires Resting(book, env, o) && Offer(book, env, o.id, budget).Ok?
    ensures var fill := PlannedFill(o, budget);
            Offer(book, env, o.id, budget).value
            == if fill == 0 then None else Some(FillSpec(o.id, fill, Cost(o, fill)))
  {
    NeverStepsDown(o, env, book.fee, budget);
    CostExact(o, o.remaining, budget);
    PlannedFillAffordable(o, budget);
  }

  /** A fixed-price, unlapsed order as the contract stores it. */
  predicate Resting(book: Book, env: Env, o: Order) {
    && o.id in book.orders && book.orders[o.id] == o
    && o.terms.Fixed? && o.Live() && env.now <= o.expiry
  }

  lemma AgreeOnFirst(book: Book, env: Env, orders: seq<Order>, budget: pos)
    requires book.fee == SWAPBOOK_FEE_PER_100K && budget <= I128_MAX
    requires orders != [] && Resting(book, env, orders[0]) && forall o <- orders :: o.terms.Fixed?
    requires QuotePlan(book, env, IdsOf(orders), budget).Ok?
    ensures var fill := PlannedFill(orders[0], budget);
            var left := budget - if fill == 0 then 0 else Cost(orders[0], fill);
            && 0 <= left && QuotePlan(book, env, IdsOf(orders[1..]), left).Ok?
            && (QuotePlan(book, env, IdsOf(orders[1..]), left).value == Planned(orders[1..], left)
                ==> QuotePlan(book, env, IdsOf(orders), budget).value == Planned(orders, budget))
  {
    var o, tail := orders[0], IdsOf(orders[1..]);
    assert IdsOf(orders) == [o.id] + tail && IdsOf(orders)[1..] == tail;
    hide Offer, QuotePlan, Planned, PlannedFill, Cost, IdsOf;
    QuotePlanCons(book, env, IdsOf(orders), budget);
    PlannerAgreesOnOrder(book, env, o, budget);
    PlannedCons(orders, budget);
  }

  lemma AgreeOnNone(book: Book, env: Env, orders: seq<Order>, budget: nat)
    requires (orders == [] || budget == 0) && forall o <- orders :: o.terms.Fixed?
    ensures QuotePlan(book, env, IdsOf(orders), budget) == Ok([]) && Planned(orders, budget) == []
  {
  }

  lemma RestingTail(book: Book, env: Env, orders: seq<Order>)
    requires orders != [] && forall o <- orders :: o.terms.Fixed? && Resting(book, env, o)
    ensures Resting(book, env, orders[0])
    ensures forall o <- orders[1..] :: o.terms.Fixed? && Resting(book, env, o)
  {
    assert orders[0] in orders && forall o <- orders[1..] :: o in orders;
  }

  /** On such a book the whole plan is the plan behind quote_fill. */
  lemma {:induction false} PlannerAgreesWithQuote(book: Book, env: Env, orders: seq<Order>, budget: nat)
    requires book.fee == SWAPBOOK_FEE_PER_100K && budget <= I128_MAX
    requires forall o <- orders :: o.terms.Fixed? && Resting(book, env, o)
    requires QuotePlan(book, env, IdsOf(orders), budget).Ok?
    ensures QuotePlan(book, env, IdsOf(orders), budget).value == Planned(orders, budget)
    decreases |orders|
  {
    hide *;
    if orders == [] || budget == 0 {
      AgreeOnNone(book, env, orders, budget);
    } else {
      RestingTail(book, env, orders);
      AgreeOnFirst(book, env, orders, budget);
      var fill := PlannedFill(orders[0], budget);
      PlannerAgreesWithQuote(book, env, orders[1..], budget - if fill == 0 then 0 else Cost(orders[0], fill));
    }
  }

  // ─── The planner against the book ───────────────────

  /** What fetchOrdersForPair reads: the orders a market's index lists, in order. */
  function BookOrders(book: Book, market: Pair): seq<Order>
    requires forall id <- book.Ids(market) :: id in book.orders
  {
    var ids := book.Ids(market);
    seq(|ids|, i requires 0 <= i < |ids| => assert ids[i] in ids; book.orders[ids[i]])
  }

  lemma {:induction false} FilteredUnique(orders: seq<Order>, keep: Order -> bool)
    requires Unique(orders)
    ensures Unique(Filtered(orders, keep))
  {
    if orders != [] {
      var tail := orders[1..];
      assert forall i :: 0 <= i < |tail| ==> tail[i] == orders[i + 1];
      FilteredUnique(tail, keep);
      FilteredKeeps(tail, keep);
      var rest := Filtered(tail, keep);
      forall i | 0 <= i < |rest| ensures rest[i].id != orders[0].id {
        assert rest[i] in tail;
      }
    }
  }

  lemma {:induction false} FilteredAll(orders: seq<Order>, keep: Order -> bool)
    ensures (forall o <- orders :: keep(o)) ==> Filtered(orders, keep) == orders
    ensures (forall o <- orders :: !keep(o)) ==> Filtered(orders, keep) == []
  {
    if orders != [] {
      FilteredAll(orders[1..], keep);
      assert orders[0] in orders && forall x <- orders[1..] :: x in orders;
    }
  }

  lemma ListedOrders(book: Book, market: Pair)
    requires Inv(book)
    ensures Indexed(book, market) && Unique(BookOrders(book, market))
    ensures forall o <- BookOrders(book, market) ::
              o.id in book.orders && book.orders[o.id] == o && o.Market() == market
  {
    assert Indexed(book, market);
    var ids := book.Ids(market);
    forall i | 0 <= i < |ids| ensures ids[i] in book.orders && book.orders[ids[i]].id == ids[i] {
      assert ids[i] in ids;
    }
  }

  /** The candidates are the book's own fillable Fixed orders, each once. */
  lemma CandidatesAreFetched(book: Book, taker: Address, wallets: set<Address>, market: Pair)
    requires Inv(book)
    ensures Indexed(book, market)
    ensures Fetched(book, taker, market, Candidates(BookOrders(book, market), taker, wallets))
  {
    ListedOrders(book, market);
    hide Inv, Indexed, BookOrders, Candidate;
    var orders := BookOrders(book, market);
    var organic := (o: Order) => Candidate(o, taker) && o.maker !in wallets;
    var operated := (o: Order) => Candidate(o, taker) && o.maker in wallets;
    FilteredKeeps(orders, organic);
    FilteredKeeps(orders, operated);
    FilteredUnique(orders, organic);
    FilteredUnique(orders, operated);
    var first, last := Filtered(orders, organic), Filtered(orders, operated);
    forall i, j | 0 <= i < |first| && 0 <= j < |last| ensures first[i].id != last[j].id {
      assert first[i] in first && last[j] in last;
    }
  }

  /** Planning a taker's swap from the book: the plan spends within the amount, and
      match_and_place runs it to the end, at any fee, if and only if no order it
      reached has lapsed. */
  lemma PlanFromBookAccepted(w: World, r: Request, wallets: set<Address>)
    requires Inv(w.book) && 0 <= Surplus(w, r.tokenOut) && r.tokenIn != r.tokenOut
    requires r.maker != w.book.self && r.maker != w.book.vault
    requires 0 < r.amountIn <= I128_MAX && r.amountIn <= Bal(w.bal, r.tokenIn, r.maker)
    ensures forall id <- w.book.Ids(Pair(r.tokenOut, r.tokenIn)) :: id in w.book.orders
    ensures Fetched(w.book, r.maker, Pair(r.tokenOut, r.tokenIn),
                    Candidates(BookOrders(w.book, Pair(r.tokenOut, r.tokenIn)), r.maker, wallets))
    ensures var listed := BookOrders(w.book, Pair(r.tokenOut, r.tokenIn));
            var plan := Planned(Candidates(listed, r.maker, wallets), r.amountIn);
            Spent(plan) <= r.amountIn && (MatchFrom(w, r, plan, 0).Ok? <==> Unlapsed(w, plan))
  {
    var market := Pair(r.tokenOut, r.tokenIn);
    assert Indexed(w.book, market);
    CandidatesAreFetched(w.book, r.maker, wallets, market);
    var orders := Candidates(BookOrders(w.book, market), r.maker, wallets);
    PlannedWithinBudget(orders, r.amountIn);
    hide Inv, Surplus, Candidates, Planned, MatchFrom, Unlapsed;
    PlannedFillsAccepted(w, r, orders);
  }

  /** An order whose expiry has passed, still listed, and a funded taker. */
  function LapsedOrder(): Order {
    Order(1, Address(3), Address(1), Address(2), 4, 4, Fixed(4), 10, Open, 1, 0, [])
  }

  function LapsedWorld(): World {
    var book := NewBook(Address(4), Address(5), Address(6), 0);
    var funds := map[(Address(1), Address(4)) := 4, (Address(2), Address(7)) := 5];
    World(Env(11, map[]), funds, Enlist(book, LapsedOrder()))
  }

  lemma LapsedWorldSound()
    ensures Inv(LapsedWorld().book) && Surplus(LapsedWorld(), Address(1)) == 0
  {
    NewBookInv(Address(4), Address(5), Address(6), 0);
    EnlistKeeps(NewBook(Address(4), Address(5), Address(6), 0), LapsedOrder());
    hide Inv, Escrow, NewBook;
  }

  lemma LapsedWorldFacts(r: Request)
    requires r == TakerRequest(Address(7), Address(1), Address(2), 5)
    ensures var w := LapsedWorld();
            && (w.book.self, w.book.vault, w.env.now) == (Address(4), Address(5), 11)
            && w.book.Ids(Pair(Address(1), Address(2))) == [1]
            && 1 in w.book.orders && w.book.orders[1] == LapsedOrder()
            && Bal(w.bal, Address(2), Address(7)) == 5
            && MatchFrom(w, r, [FillSpec(1, 4, 5)], 0) == Err(OrderExpired)
  {
  }

  lemma LapsedIsPlanned()
    ensures Planned([LapsedOrder()], 5) == [FillSpec(1, 4, 5)]
  {
    var o, spec := LapsedOrder(), FillSpec(1, 4, 5);
    assert Cost(o, 4) == 5;
    PlannedCons([o], 5);
    PlannedDone([], 0);
    assert [o][1..] == [] && [spec] + [] == [spec];
  }

  /** A plan that is refused, on a book in good order for a funded taker: the planner
      spends on the lapsed order. */
  lemma LapsedOrderIsPlanned()
    ensures exists w: World, r: Request ::
              && Inv(w.book) && 0 <= Surplus(w, r.tokenOut) && r.tokenIn != r.tokenOut
              && r.maker != w.book.self && r.maker != w.book.vault
              && 0 < r.amountIn <= I128_MAX && r.amountIn <= Bal(w.bal, r.tokenIn, r.maker)
              && var market := Pair(r.tokenOut, r.tokenIn);
              && (forall id <- w.book.Ids(market) :: id in w.book.orders)
              && var orders := Candidates(BookOrders(w.book, market), r.maker, {});
              && Fetched(w.book, r.maker, market, orders)
              && !Unlapsed(w, Planned(orders, r.amountIn))
              && MatchFrom(w, r, Planned(orders, r.amountIn), 0) == Err(OrderExpired)
  {
    hide Inv, Surplus, Candidates, Planned, MatchFrom, Bal, LapsedWorld;
    var w, r := LapsedWorld(), TakerRequest(Address(7), Address(1), Address(2), 5);
    var market, o := Pair(Address(1), Address(2)), LapsedOrder();
    LapsedWorldSound();
    LapsedWorldFacts(r);
    assert BookOrders(w.book, market) == [o];
    CandidatesAreFetched(w.book, r.maker, {}, market);
    AllCandidates([o], r.maker, {});
    LapsedIsPlanned();
    assert FillSpec(1, 4, 5) in [FillSpec(1, 4, 5)];
  }

  /** May the planner use every order the market lists, and only as organic ones? */
  predicate AllUsable(w: World, taker: Address, wallets: set<Address>, market: Pair) {
    forall id <- w.book.Ids(market) ::
      && id in w.book.orders
      && var o := w.book.orders[id];
      o.terms.Fixed? && w.env.now <= o.expiry && o.maker != taker && taker !in o.excluded && o.maker !in wallets
  }

  lemma ListedIsUsable(w: World, taker: Address, wallets: set<Address>, market: Pair, i: nat)
    requires Indexed(w.book, market) && AllUsable(w, taker, wallets, market) && i < |w.book.Ids(market)|
    ensures var id := w.book.Ids(market)[i];
            && id in w.book.orders
            && var o := w.book.orders[id];
            && Candidate(o, taker) && o.maker !in wallets && o.terms.Fixed? && w.env.now <= o.expiry && o.Live()
  {
    assert w.book.Ids(market)[i] in w.book.Ids(market);
  }

  lemma AllCandidates(orders: seq<Order>, taker: Address, wallets: set<Address>)
    requires forall o <- orders :: Candidate(o, taker) && o.maker !in wallets
    ensures Candidates(orders, taker, wallets) == orders
  {
    hide Candidate;
    FilteredAll(orders, (o: Order) => Candidate(o, taker) && o.maker !in wallets);
    FilteredAll(orders, (o: Order) => Candidate(o, taker) && o.maker in wallets);
    assert orders + [] == orders;
  }

  lemma ListedIds(book: Book, market: Pair)
    requires Inv(book)
    ensures Indexed(book, market) && IdsOf(BookOrders(book, market)) == book.Ids(market)
  {
    assert Indexed(book, market);
    var ids := book.Ids(market);
    forall i | 0 <= i < |ids| ensures ids[i] in book.orders && book.orders[ids[i]].id == ids[i] {
      assert ids[i] in ids;
    }
  }

  lemma AllAreCandidates(w: World, taker: Address, wallets: set<Address>, market: Pair)
    requires Inv(w.book) && AllUsable(w, taker, wallets, market)
    ensures Indexed(w.book, market)
    ensures var orders := BookOrders(w.book, market);
            && Candidates(orders, taker, wallets) == orders && IdsOf(orders) == w.book.Ids(market)
            && forall o <- orders :: o.terms.Fixed? && Resting(w.book, w.env, o)
  {
    hide Inv, Indexed, AllUsable, Candidate, Candidates, Unique, IdsOf;
    ListedIds(w.book, market);
    ListedOrders(w.book, market);
    var orders := BookOrders(w.book, market);
    forall o <- orders
      ensures Candidate(o, taker) && o.maker !in wallets && o.terms.Fixed? && Resting(w.book, w.env, o)
    {
      var i: nat :| i < |orders| && orders[i] == o;
      ListedIsUsable(w, taker, wallets, market, i);
    }
    AllCandidates(orders, taker, wallets);
  }

  /** On a fixed-price, unlapsed book at the capped fee, with no protocol wallets and
      nothing of the taker's own or closed to it, the planner's totals are quote_fill's. */
  lemma PlannerTotalsAreQuoteFill(w: World, taker: Address, wallets: set<Address>, buy: Address, pay: Address,
                                  amount: int)
    requires Inv(w.book) && w.book.fee == SWAPBOOK_FEE_PER_100K && 0 < amount <= I128_MAX
    requires AllUsable(w, taker, wallets, Pair(buy, pay))
    requires QuoteFill(w, buy, pay, amount).Ok?
    ensures Fetched(w.book, taker, Pair(buy, pay), Candidates(BookOrders(w.book, Pair(buy, pay)), taker, wallets))
    ensures var plan := Planned(Candidates(BookOrders(w.book, Pair(buy, pay)), taker, wallets), amount);
            QuoteFill(w, buy, pay, amount).value == (Taken(plan), Spent(plan))
  {
    var market := Pair(buy, pay);
    AllAreCandidates(w, taker, wallets, market);
    CandidatesAreFetched(w.book, taker, wallets, market);
    hide Inv, Candidates, Resting, Planned, QuotePlan, Taken, Spent, IdsOf;
    PlannerAgreesWithQuote(w.book, w.env, BookOrders(w.book, market), amount);
  }

  lemma PlannedDone(orders: seq<Order>, budget: nat)
    requires orders == [] || budget == 0
    requires forall o <- orders :: o.terms.Fixed?
    ensures Planned(orders, budget) == []
  {
  }
}
