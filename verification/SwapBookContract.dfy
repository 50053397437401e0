/** The SwapBook contract as it runs: entry points that rewrite stored orders, pair
    indexes, counters and balances step by step. Each is proved to do exactly what
    its function in SwapBook says, and a failing one to leave everything as it was. */
module SwapBookContract {
  import opened Results
  import opened MulDiv
  import opened Chain
  import opened Host
  import opened SwapBook
  import opened BookCalls
  import opened BookQuote
  import opened BookReplay

  /** What the host restores when a call fails. */
  datatype Checkpoint = Checkpoint(
    bal: Balances, nextId: nat, orders: map<nat, Order>, index: map<Pair, seq<nat>>, counts: map<Slot, nat>)

  class Contract {
    const self: Address
    const vault: Address
    const router: Address
    const host: Host
    var fee: FeeRate
    var minOrder: map<Address, int>
    var nextId: nat
    var orders: map<nat, Order>
    var index: map<Pair, seq<nat>>
    var counts: map<Slot, nat>
    ghost var receipts: map<nat, Receipt>

    constructor (self: Address, vault: Address, router: Address, host: Host)
      ensures this.self == self && this.vault == vault && this.router == router && this.host == host
      ensures Book() == SwapBook.Book(self, vault, router, 5, map[], 1, map[], map[], map[], map[])
    {
      this.self, this.vault, this.router, this.host := self, vault, router, host;
      fee, minOrder, nextId := 5, map[], 1;
      orders, index, counts, receipts := map[], map[], map[], map[];
    }

    ghost function Book(): Book
      reads this
    {
      SwapBook.Book(self, vault, router, fee, minOrder, nextId, orders, index, counts, receipts)
    }

    ghost function World(): World
      reads this, host
    {
      SwapBook.World(host.env, host.bal, Book())
    }

    /** Every stored order sits under its own number. */
    ghost predicate Keyed()
      reads this
    {
      forall id <- orders :: orders[id].id == id
    }

    method Save() returns (c: Checkpoint)
      ensures c == Checkpoint(host.bal, nextId, orders, index, counts)
    {
      c := Checkpoint(host.bal, nextId, orders, index, counts);
    }

    /** Host rollback of a failed invocation. */
    method Restore(c: Checkpoint, ghost history: map<nat, Receipt>)
      modifies this`nextId, this`orders, this`index, this`counts, this`receipts, host`bal
      ensures Checkpoint(host.bal, nextId, orders, index, counts) == c && receipts == history
    {
      host.bal, nextId, orders, index, counts := c.bal, c.nextId, c.orders, c.index, c.counts;
      receipts := history;
    }

    // ─── Indexes ────────────────────────────────────────

    method RemoveFromPairIndex(market: Pair, id: nat)
      modifies this`index
      ensures index == if market in old(index) then old(index)[market := Without(old(index)[market], id)]
              else old(index)
    {
      if market in index {
        var ids := index[market];
        var newIds := [];
        for i := 0 to |ids|
          invariant newIds + Without(ids[i..], id) == Without(ids, id)
        {
          assert ids[i..][0] == ids[i] && ids[i..][1..] == ids[i + 1..];
          if ids[i] != id {
            newIds := newIds + [ids[i]];
          }
        }
        assert ids[|ids|..] == [] && newIds + [] == newIds;
        index := index[market := newIds];
      }
    }

    method CloseOrderIndexes(o: Order)
      modifies this`index, this`counts
      ensures Book() == CloseIndexes(old(Book()), o)
    {
      RemoveFromPairIndex(o.Market(), o.id);
      var slot := Slot(o.maker, o.Market());
      var count := if slot in counts then counts[slot] else 0;
      if count <= 1 {
        counts := counts - {slot};
      } else {
        counts := counts[slot := count - 1];
      }
    }

    // ─── Placing ────────────────────────────────────────

    /** The placement checks, and the order they admit. */
    method CheckPlacement(r: Request) returns (res: Result<Order>)
      ensures res == Admit(World(), r)
    {
      if r.amountIn <= 0 { return Err(InvalidAmount); }
      if !r.oracleMode && r.minOut <= 0 { return Err(InvalidAmount); }
      if r.oracleMode && r.minOut < 0 { return Err(InvalidAmount); }
      if r.oracleMode && (r.slippageBps == 0 || MAX_SLIPPAGE_BPS < r.slippageBps) { return Err(SlippageTooHigh); }
      if r.tokenIn == r.tokenOut { return Err(SameToken); }
      if r.expiry <= host.env.now { return Err(OrderExpired); }
      if host.env.now + MAX_EXPIRY_LEDGERS < r.expiry { return Err(ExpiryTooFar); }
      if r.tokenIn in minOrder && r.amountIn < minOrder[r.tokenIn] { return Err(BelowMinimumOrder); }
      if r.oracleMode {
        var price := FreshPrice(host.env, r.Market());
        if price.Err? { return Err(price.error); }
      }
      if 0 < r.autoRouteAfter && (r.autoRouteAfter <= host.env.now || r.expiry <= r.autoRouteAfter) {
        return Err(InvalidAmount);
      }
      if MAX_EXCLUDED < |r.excluded| { return Err(TooManyExclusions); }
      var ids := if r.Market() in index then index[r.Market()] else [];
      if MAX_ORDERS_PER_PAIR <= |ids| { return Err(BookFull); }
      var slot := Slot(r.maker, r.Market());
      var open := if slot in counts then counts[slot] else 0;
      if MAX_OPEN_PER_MAKER_PAIR <= open { return Err(MakerPairLimit); }
      var terms := if r.oracleMode then Oracle(r.minOut, r.slippageBps) else Fixed(r.minOut);
      res := Ok(Order(nextId, r.maker, r.tokenIn, r.tokenOut, r.amountIn, r.amountIn, terms,
                      r.expiry, Open, host.env.now, r.autoRouteAfter, r.excluded));
    }

    method Record(o: Order)
      requires o.id == nextId
      modifies this`nextId, this`orders, this`index, this`counts
      ensures Book() == Enlist(old(Book()), o)
      ensures old(Keyed()) ==> Keyed()
    {
      nextId := o.id + 1;
      orders := orders[o.id := o];
      var ids := if o.Market() in index then index[o.Market()] else [];
      index := index[o.Market() := ids + [o.id]];
      var slot := Slot(o.maker, o.Market());
      var open := if slot in counts then counts[slot] else 0;
      counts := counts[slot := open + 1];
    }

    method PlaceInner(r: Request) returns (res: Result<nat>)
      modifies this`nextId, this`orders, this`index, this`counts, host`bal
      ensures res.Ok? ==> Place(old(World()), r) == Ok(World()) && res.value == old(nextId)
      ensures res.Err? ==> Place(old(World()), r) == Err(res.error) && World() == old(World())
      ensures old(Keyed()) ==> Keyed()
    {
      var admitted := CheckPlacement(r);
      if admitted.Err? { return Err(admitted.error); }
      var o := admitted.value;
      var moved := host.MakeTransfer(o.tokenIn, o.maker, self, o.amountIn);
      if moved.Err? { return Err(moved.error); }
      assert o.id == nextId;
      hide Admit, Transfer, Enlist;
      Record(o);
      res := Ok(o.id);
    }

    // ─── Filling ────────────────────────────────────────

    method CheckFill(taker: Address, o: Order, fill: int, gross: int) returns (res: Result<int>)
      ensures res == VetFill(Book(), host.env, taker, o, fill, gross)
    {
      if !o.Live() { return Err(OrderNotOpen); }
      if taker in o.excluded { return Err(ExcludedCounterparty); }
      if taker == o.maker { return Err(ExcludedCounterparty); }
      if o.expiry < host.env.now { return Err(OrderExpired); }
      if fill <= 0 || gross <= 0 { return Err(InvalidAmount); }
      if o.remaining < fill { return Err(FillExceedsRemaining); }
      var charged := Fee(fee, gross);
      var net := gross - charged;
      var required := RequiredPayment(o, host.env, fill);
      if required.Err? { return Err(required.error); }
      if net < required.value {
        return Err(if o.terms.Fixed? then InsufficientOutput else OracleSlippageExceeded);
      }
      if net <= 0 { return Err(InvalidAmount); }
      res := Ok(net);
    }

    /** The three transfers of a fill; a failure midway is undone by the entry point. */
    method MoveFunds(taker: Address, o: Order, fill: int, net: int, charged: int) returns (res: Result<()>)
      modifies host`bal
      ensures var paid := PayWithFee(old(host.bal), o.tokenOut, taker, o.maker, vault, net, charged);
              var all := if paid.Ok? then Transfer(paid.value, o.tokenIn, self, taker, fill) else paid;
              (res.Ok? ==> all == Ok(host.bal)) && (res.Err? ==> all == Err(res.error))
    {
      res := host.MakeTransfer(o.tokenOut, taker, o.maker, net);
      if res.Err? { return; }
      if 0 < charged {
        res := host.MakeTransfer(o.tokenOut, taker, vault, charged);
        if res.Err? { return; }
      }
      hide Transfer;
      res := host.MakeTransfer(o.tokenIn, self, taker, fill);
    }

    method RecordFill(o: Order, fill: nat, net: int)
      requires o.id in orders && orders[o.id] == o && fill <= o.remaining
      modifies this`orders, this`index, this`counts, this`receipts
      ensures Book() == Consume(old(Book()), o.id, fill, net)
      ensures old(Keyed()) ==> Keyed()
    {
      var left := o.remaining - fill;
      var o' := o.(remaining := left, status := if left == 0 then Filled else PartialFill);
      ghost var paid := Book().Paid(o.id);
      if left == 0 {
        CloseOrderIndexes(o');
      }
      orders := orders[o.id := o'];
      receipts := receipts[o.id := Receipt(paid.net + net, paid.refunded)];
    }

    method FillInner(taker: Address, o: Order, fill: int, gross: int) returns (res: Result<()>)
      requires o.id in orders && orders[o.id] == o && Keyed()
      modifies this`orders, this`index, this`counts, this`receipts, host`bal
      ensures Keyed()
      ensures res.Ok? ==> Fill(old(World()), taker, o.id, fill, gross) == Ok(World())
      ensures res.Err? ==> Fill(old(World()), taker, o.id, fill, gross) == Err(res.error)
    {
      var net := CheckFill(taker, o, fill, gross);
      if net.Err? { return Err(net.error); }
      assert 0 < fill <= o.remaining;
      hide VetFill, Consume, PayWithFee, Transfer;
      res := MoveFunds(taker, o, fill, net.value, gross - net.value);
      if res.Ok? {
        RecordFill(o, fill, net.value);
      }
    }

    method PartialFillOrder(taker: Address, id: nat, fill: int, gross: int) returns (res: Result<()>)
      requires Keyed()
      modifies this`nextId, this`orders, this`index, this`counts, this`receipts, host`bal
      ensures Keyed()
      ensures res.Ok? ==> Fill(old(World()), taker, id, fill, gross) == Ok(World())
      ensures res.Err? ==> Fill(old(World()), taker, id, fill, gross) == Err(res.error) && World() == old(World())
    {
      if id !in orders { return Err(OrderNotFound); }
      var saved := Save();
      ghost var history := receipts;
      res := FillInner(taker, orders[id], fill, gross);
      if res.Err? {
        Restore(saved, history);
      }
    }

    /** fill_order: the whole remainder. */
    method FillWholeOrder(taker: Address, id: nat, gross: int) returns (res: Result<()>)
      requires Keyed()
      modifies this`nextId, this`orders, this`index, this`counts, this`receipts, host`bal
      ensures Keyed()
      ensures res.Ok? ==> FillAll(old(World()), taker, id, gross) == Ok(World())
      ensures res.Err? ==> FillAll(old(World()), taker, id, gross) == Err(res.error) && World() == old(World())
    {
      if id !in orders { return Err(OrderNotFound); }
      res := PartialFillOrder(taker, id, orders[id].remaining, gross);
    }

    // ─── Closing ────────────────────────────────────────

    method RecordClose(o: Order, status: Status, refund: nat)
      requires o.id in orders && orders[o.id] == o
      modifies this`orders, this`index, this`counts, this`receipts
      ensures Book() == Close(old(Book()), o.id, status, refund)
    {
      var o' := o.(remaining := 0, status := status);
      ghost var paid := Book().Paid(o.id);
      orders := orders[o.id := o'];
      receipts := receipts[o.id := Receipt(paid.net, paid.refunded + refund)];
      CloseOrderIndexes(o');
    }

    method CancelOrder(id: nat) returns (res: Result<()>)
      requires Keyed()
      modifies this`orders, this`index, this`counts, this`receipts, host`bal
      ensures Keyed()
      ensures res.Ok? ==> Cancel(old(World()), id) == Ok(World())
      ensures res.Err? ==> Cancel(old(World()), id) == Err(res.error) && World() == old(World())
    {
      if id !in orders { return Err(OrderNotFound); }
      var o := orders[id];
      if o.status != Open && o.status != PartialFill { return Err(OrderNotOpen); }
      res := host.MakeTransfer(o.tokenIn, self, o.maker, o.remaining);
      if res.Err? { return; }
      hide Transfer;
      RecordClose(o, Cancelled, o.remaining);
    }

    method ExpireOrder(id: nat) returns (res: Result<()>)
      requires Keyed()
      modifies this`orders, this`index, this`counts, this`receipts, host`bal
      ensures Keyed()
      ensures res.Ok? ==> Expire(old(World()), id) == Ok(World())
      ensures res.Err? ==> Expire(old(World()), id) == Err(res.error) && World() == old(World())
    {
      if id !in orders { return Err(OrderNotFound); }
      var o := orders[id];
      if o.status != Open && o.status != PartialFill { return Err(OrderNotOpen); }
      if host.env.now <= o.expiry { return Err(OrderNotExpired); }
      res := Ok(());
      if 0 < o.remaining {
        res := host.MakeTransfer(o.tokenIn, self, o.maker, o.remaining);
        if res.Err? { return; }
      }
      hide Transfer;
      RecordClose(o, Status.Expired, o.remaining);
    }

    method ClaimExpiredTimer(id: nat) returns (res: Result<Claim>)
      requires Keyed()
      modifies this`orders, this`index, this`counts, this`receipts, host`bal
      ensures Keyed()
      ensures res.Ok? ==> ClaimTimer(old(World()), id) == Ok((World(), res.value))
      ensures res.Err? ==> ClaimTimer(old(World()), id) == Err(res.error) && World() == old(World())
    {
      if id !in orders { return Err(OrderNotFound); }
      var o := orders[id];
      if o.status != Open && o.status != PartialFill { return Err(OrderNotOpen); }
      if o.autoRouteAfter == 0 { return Err(TimerNotExpired); }
      if host.env.now <= o.autoRouteAfter { return Err(TimerNotExpired); }
      if o.expiry < host.env.now { return Err(OrderExpired); }
      var minOut := RequiredPayment(o, host.env, o.remaining);
      if minOut.Err? { return Err(minOut.error); }
      var moved := host.MakeTransfer(o.tokenIn, self, router, o.remaining);
      if moved.Err? { return Err(moved.error); }
      hide Transfer, RequiredPayment;
      RecordClose(o, Routed, 0);
      res := Ok(Claim(id, o.maker, o.tokenIn, o.tokenOut, o.remaining, minOut.value));
    }

    /** History only: a claimed order's maker has been paid by the router. */
    ghost method RecordPayment(id: nat, net: int)
      modifies this`receipts
      ensures receipts == old(receipts)[id := Receipt(old(Book()).Paid(id).net + net, old(Book()).Paid(id).refunded)]
    {
      receipts := receipts[id := Receipt(Book().Paid(id).net + net, Book().Paid(id).refunded)];
    }

    // ─── Matching ───────────────────────────────────────

    method RunFills(r: Request, fills: seq<FillSpec>) returns (res: Result<int>)
      requires Keyed()
      modifies this`orders, this`index, this`counts, this`receipts, host`bal
      ensures Keyed()
      ensures res.Ok? ==> MatchFrom(old(World()), r, fills, 0) == Ok((World(), res.value))
      ensures res.Err? ==> MatchFrom(old(World()), r, fills, 0) == Err(res.error)
    {
      hide Fill;
      var spent := 0;
      assert fills[0..] == fills;
      for i := 0 to |fills|
        invariant Keyed()
        invariant MatchFrom(old(World()), r, fills, 0) == MatchFrom(World(), r, fills[i..], spent)
      {
        assert fills[i..][0] == fills[i] && fills[i..][1..] == fills[i + 1..];
        var spec := fills[i];
        if spec.fill <= 0 || spec.gross <= 0 { return Err(InvalidAmount); }
        if spec.id !in orders { return Err(OrderNotFound); }
        var o := orders[spec.id];
        if o.tokenIn != r.tokenOut || o.tokenOut != r.tokenIn { return Err(MatchWrongPair); }
        if I128_MAX < spent + spec.gross { return Err(Overflow); }
        spent := spent + spec.gross;
        if r.amountIn < spent { return Err(MatchExceedsBudget); }
        var filled := FillInner(r.maker, o, spec.fill, spec.gross);
        if filled.Err? { return Err(filled.error); }
      }
      assert fills[|fills|..] == [];
      res := Ok(spent);
    }

    method MatchThenPlace(r: Request, fills: seq<FillSpec>) returns (res: Result<nat>)
      requires Keyed()
      modifies this`nextId, this`orders, this`index, this`counts, this`receipts, host`bal
      ensures Keyed()
      ensures res.Ok? ==> MatchAndPlace(old(World()), r, fills) == Ok(World())
                          && res.value == if Spent(fills) < r.amountIn then old(nextId) else 0
      ensures res.Err? ==> MatchAndPlace(old(World()), r, fills) == Err(res.error) && World() == old(World())
    {
      hide MatchFrom, Place;
      if r.amountIn <= 0 { return Err(InvalidAmount); }
      var saved := Save();
      ghost var history := receipts;
      var spent := RunFills(r, fills);
      if spent.Err? {
        Restore(saved, history);
        return Err(spent.error);
      }
      MatchReports(old(World()), r, fills, 0);
      hide Spent;
      res := Ok(0);
      if 0 < r.amountIn - spent.value {
        res := PlaceInner(r.(amountIn := r.amountIn - spent.value));
        if res.Err? {
          Restore(saved, history);
        }
      }
    }

    method SetProtocolFee(rate: int) returns (res: Result<()>)
      modifies this`fee
      ensures res.Ok? ==> SetFee(old(World()), rate) == Ok(World())
      ensures res.Err? ==> SetFee(old(World()), rate) == Err(res.error) && World() == old(World())
    {
      if rate < 0 || MAX_FEE_PER_100K < rate { return Err(FeeAboveCap); }
      fee := rate;
      res := Ok(());
    }

    // ─── Quoting ────────────────────────────────────────

    /** max_affordable_fill: estimate, cap, then step down to an exact price. */
    method MaxAffordableFill(o: Order, budget: nat) returns (res: Result<(nat, nat)>)
      ensures res == AffordableFill(o, host.env, fee, budget)
    {
      var estimate := Estimate(o, host.env, fee, budget);
      if estimate.Err? { return Err(estimate.error); }
      var fill := estimate.value;
      if o.remaining < fill {
        fill := o.remaining;
      }
      while 0 < fill
        invariant AffordableFill(o, host.env, fee, budget) == StepDown(o, host.env, fee, budget, fill)
      {
        var pay := RequiredGross(o, host.env, fee, fill);
        if pay.Err? { return Err(pay.error); }
        if pay.value <= budget { return Ok((fill, pay.value)); }
        fill := fill - 1;
      }
      res := Ok((0, 0));
    }

    /** What one resting order contributes to a quote. */
    method OfferOf(id: nat, budget: nat) returns (res: Result<Option<FillSpec>>)
      ensures res == Offer(Book(), host.env, id, budget)
    {
      if id !in orders { return Ok(None); }
      var o := orders[id];
      if o.status != Open && o.status != PartialFill { return Ok(None); }
      if o.expiry < host.env.now { return Ok(None); }
      var most := MaxAffordableFill(o, budget);
      if most == Err(Trap) { return Err(Trap); }
      if most.Err? || most.value.0 == 0 { return Ok(None); }
      var gross := RequiredGross(o, host.env, fee, most.value.0);
      if gross == Err(Trap) { return Err(Trap); }
      if gross.Err? || budget < gross.value { return Ok(None); }
      res := Ok(Some(FillSpec(id, most.value.0, gross.value)));
    }

    /** quote_fill: scan the reverse orders while budget is left. */
    method QuoteOrders(buy: Address, pay: Address, amount: int) returns (res: Result<(int, int)>)
      ensures res == QuoteFill(World(), buy, pay, amount)
    {
      if amount <= 0 { return Ok((0, 0)); }
      var ids := if Pair(buy, pay) in index then index[Pair(buy, pay)] else [];
      res := ScanOffers(ids, amount);
    }

    method ScanOffers(ids: seq<nat>, amount: nat) returns (res: Result<(int, int)>)
      ensures var plan := QuotePlan(Book(), host.env, ids, amount);
              res == if plan.Ok? then Ok((Taken(plan.value), Spent(plan.value))) else Err(plan.error)
    {
      var budget: nat, bought := amount, 0;
      ghost var book, env := Book(), host.env;
      ghost var done: seq<FillSpec>, all := [], QuotePlan(book, env, ids, amount);
      EmptyPlan();
      PrependNothing(all);
      assert ids[0..] == ids;
      hide Offer, QuotePlan, Taken, Spent, Prepend;
      var i := 0;
      while i < |ids| && 0 < budget
        invariant 0 <= i <= |ids|
        invariant bought == Taken(done) && budget == amount - Spent(done)
        invariant Book() == book && host.env == env
        invariant all == Prepend(done, QuotePlan(book, env, ids[i..], budget))
      {
        ScanStep(book, env, ids, i, budget, done);
        var offer := OfferOf(ids[i], budget);
        if offer.Err? { return Err(offer.error); }
        if offer.value.Some? {
          var spec := offer.value.value;
          PlanAppend(done, spec);
          done := done + [spec];
          bought := bought + spec.fill;
          budget := budget - spec.gross;
        }
        i := i + 1;
      }
      ScanEnd(book, env, ids, i, budget, done);
      res := Ok((bought, amount - budget));
    }
  }

  /** A plan whose first fills are already known. */
  function Prepend(done: seq<FillSpec>, rest: Result<seq<FillSpec>>): Result<seq<FillSpec>> {
    if rest.Ok? then Ok(done + rest.value) else rest
  }

  lemma PrependNothing(rest: Result<seq<FillSpec>>)
    ensures Prepend([], rest) == rest
  {
    assert rest.Ok? ==> [] + rest.value == rest.value;
  }

  /** One pass of the scan: skip the order, abort with it, or add its fill. */
  lemma ScanStep(book: Book, env: Env, ids: seq<nat>, i: nat, budget: pos, done: seq<FillSpec>)
    requires i < |ids|
    ensures var all := Prepend(done, QuotePlan(book, env, ids[i..], budget));
            match Offer(book, env, ids[i], budget)
            case Err(e) => all == Err(e)
            case Ok(None) => all == Prepend(done, QuotePlan(book, env, ids[i + 1..], budget))
            case Ok(Some(spec)) =>
              0 <= spec.gross <= budget
              && all == Prepend(done + [spec], QuotePlan(book, env, ids[i + 1..], budget - spec.gross))
  {
    hide Offer;
    assert ids[i..][0] == ids[i] && ids[i..][1..] == ids[i + 1..];
    var offer := Offer(book, env, ids[i], budget);
    OfferedWithin(book, env, ids[i], budget);
    if offer.Ok? && offer.value.Some? {
      var spec := offer.value.value;
      PrependOne(done, spec, QuotePlan(book, env, ids[i + 1..], budget - spec.gross));
    }
  }

  lemma OfferedWithin(book: Book, env: Env, id: nat, budget: nat)
    ensures var offer := Offer(book, env, id, budget);
            offer.Ok? && offer.value.Some? ==> 0 <= offer.value.value.gross <= budget
  {
  }

  lemma ScanEnd(book: Book, env: Env, ids: seq<nat>, i: nat, budget: nat, done: seq<FillSpec>)
    requires i == |ids| || (i < |ids| && budget == 0)
    ensures Prepend(done, QuotePlan(book, env, ids[i..], budget)) == Ok(done)
  {
    assert done + [] == done;
  }

  lemma PrependOne(done: seq<FillSpec>, spec: FillSpec, rest: Result<seq<FillSpec>>)
    ensures Prepend(done, Prepend([spec], rest)) == Prepend(done + [spec], rest)
  {
    assert rest.Ok? ==> done + ([spec] + rest.value) == done + [spec] + rest.value;
  }
}
