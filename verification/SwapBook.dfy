/** SwapBook: an escrowed order book. Each entry point is a function from the
    world before the call to the world after it, or an error (the host then keeps
    the world before the call). */
module SwapBook {
  import opened Results
  import opened MulDiv
  import opened Chain

  const MAX_FEE_PER_100K := 5
  const FEE_DENOMINATOR: pos := 100_000
  const BPS_DENOMINATOR: pos := 10_000
  const MAX_EXCLUDED := 5
  const MAX_SLIPPAGE_BPS := 1000
  const MAX_ORDERS_PER_PAIR := 200
  const MAX_EXPIRY_LEDGERS := 1_555_200
  const MAX_OPEN_PER_MAKER_PAIR := 10

  type FeeRate = f: nat | f <= MAX_FEE_PER_100K
  type Slippage = s: nat | 1 <= s <= MAX_SLIPPAGE_BPS witness 1

  datatype Status = Open | PartialFill | Filled | Cancelled | Expired | Routed

  /** Price mode together with the parameter that mode uses. An oracle order's
      min_amount_out is stored but never read again. */
  datatype Terms = Fixed(minOut: pos) | Oracle(echoedMinOut: nat, slippageBps: Slippage)

  datatype Order = Order(
    id: nat, maker: Address, tokenIn: Address, tokenOut: Address,
    amountIn: pos, remaining: nat, terms: Terms, expiry: nat, status: Status,
    createdAt: nat, autoRouteAfter: nat, excluded: seq<Address>)
  {
    predicate Live() {
      status == Open || status == PartialFill
    }

    function Market(): Pair {
      Pair(tokenIn, tokenOut)
    }
  }

  /** One maker's slot counter key on a directed pair. */
  datatype Slot = Slot(maker: Address, market: Pair)

  /** History: what an order's maker has been paid (net of fees) and refunded. */
  datatype Receipt = Receipt(net: int, refunded: int)

  datatype Book = Book(
    self: Address, vault: Address, router: Address, fee: FeeRate,
    minOrder: map<Address, int>, nextId: nat, orders: map<nat, Order>,
    index: map<Pair, seq<nat>>, counts: map<Slot, nat>, receipts: map<nat, Receipt>)
  {
    function Ids(market: Pair): seq<nat> {
      if market in index then index[market] else []
    }

    function OpenCount(slot: Slot): nat {
      if slot in counts then counts[slot] else 0
    }

    function Paid(id: nat): Receipt {
      if id in receipts then receipts[id] else Receipt(0, 0)
    }

    function Read(id: nat): Result<Order> {
      if id in orders then Ok(orders[id]) else Err(OrderNotFound)
    }
  }

  datatype World = World(env: Env, bal: Balances, book: Book)

  // ─── Prices and fees ────────────────────────────────

  function Fee(rate: FeeRate, amount: nat): nat {
    Ceil(amount, rate, FEE_DENOMINATOR)
  }

  /** The least net token_out the maker accepts for `fill` of an order. */
  function RequiredPayment(o: Order, env: Env, fill: nat): Result<nat> {
    match o.terms
    case Fixed(minOut) => Ok(Ceil(minOut, fill, o.amountIn))
    case Oracle(_, slippage) =>
      var price :- FreshPrice(env, o.Market());
      var fair := Floor(fill, price.num, price.den);
      :- Need(fair <= I128_MAX, Trap);
      Ok(Ceil(fair, BPS_DENOMINATOR - slippage, BPS_DENOMINATOR))
  }

  // ─── Index upkeep ───────────────────────────────────

  function Without(ids: seq<nat>, id: nat): seq<nat> {
    if ids == [] then []
    else if ids[0] == id then Without(ids[1..], id)
    else [ids[0]] + Without(ids[1..], id)
  }

  /** Drop a closed order from its pair index and release its maker's slot. */
  function CloseIndexes(book: Book, o: Order): Book {
    var slot := Slot(o.maker, o.Market());
    var count := book.OpenCount(slot);
    book.(
      index := if o.Market() in book.index
               then book.index[o.Market() := Without(book.index[o.Market()], o.id)]
               else book.index,
      counts := if count <= 1 then book.counts - {slot} else book.counts[slot := count - 1])
  }

  // ─── Placing ────────────────────────────────────────

  datatype Request = Request(
    maker: Address, tokenIn: Address, tokenOut: Address, amountIn: int, minOut: int,
    expiry: nat, oracleMode: bool, slippageBps: nat, autoRouteAfter: nat, excluded: seq<Address>)
  {
    function Market(): Pair {
      Pair(tokenIn, tokenOut)
    }
  }

  function ParseTerms(r: Request): Result<Terms> {
    if r.minOut < (if r.oracleMode then 0 else 1) then Err(InvalidAmount)
    else if !r.oracleMode then Ok(Fixed(r.minOut))
    else if 1 <= r.slippageBps <= MAX_SLIPPAGE_BPS then Ok(Oracle(r.minOut, r.slippageBps))
    else Err(SlippageTooHigh)
  }

  /** The order a request asks for, before escrow; the checks are in source order. */
  function Admit(w: World, r: Request): Result<Order> {
    var terms :- if 0 < r.amountIn then ParseTerms(r) else Err(InvalidAmount);
    :- Need(r.tokenIn != r.tokenOut, SameToken);
    :- Need(w.env.now < r.expiry, OrderExpired);
    :- Need(r.expiry <= w.env.now + MAX_EXPIRY_LEDGERS, ExpiryTooFar);
    :- Need(r.tokenIn in w.book.minOrder ==> w.book.minOrder[r.tokenIn] <= r.amountIn, BelowMinimumOrder);
    :- Need(r.oracleMode ==> FreshPrice(w.env, r.Market()).Ok?,
            if r.Market() in w.env.prices then OraclePriceStale else OraclePriceNotSet);
    :- Need(r.autoRouteAfter == 0 || w.env.now < r.autoRouteAfter < r.expiry, InvalidAmount);
    :- Need(|r.excluded| <= MAX_EXCLUDED, TooManyExclusions);
    :- Need(|w.book.Ids(r.Market())| < MAX_ORDERS_PER_PAIR, BookFull);
    :- Need(w.book.OpenCount(Slot(r.maker, r.Market())) < MAX_OPEN_PER_MAKER_PAIR, MakerPairLimit);
    Ok(Order(w.book.nextId, r.maker, r.tokenIn, r.tokenOut, r.amountIn, r.amountIn, terms,
             r.expiry, Open, w.env.now, r.autoRouteAfter, r.excluded))
  }

  /** Record a new order, list it on its pair and count it for its maker. */
  function Enlist(book: Book, o: Order): Book {
    var slot := Slot(o.maker, o.Market());
    book.(
      nextId := book.nextId + 1,
      orders := book.orders[o.id := o],
      index := book.index[o.Market() := book.Ids(o.Market()) + [o.id]],
      counts := book.counts[slot := book.OpenCount(slot) + 1])
  }

  function Place(w: World, r: Request): Result<World> {
    var o :- Admit(w, r);
    var bal :- Transfer(w.bal, o.tokenIn, o.maker, w.book.self, o.amountIn);
    Ok(w.(bal := bal, book := Enlist(w.book, o)))
  }

  // ─── Filling ────────────────────────────────────────

  /** Take `fill` off an order and pay `net` to its history. */
  function Consume(book: Book, id: nat, fill: nat, net: int): Book
    requires id in book.orders && fill <= book.orders[id].remaining
  {
    var o := book.orders[id];
    var left := o.remaining - fill;
    var o' := o.(remaining := left, status := if left == 0 then Filled else PartialFill);
    var closed := if left == 0 then CloseIndexes(book, o') else book;
    closed.(orders := closed.orders[id := o'],
            receipts := closed.receipts[id := Receipt(closed.Paid(id).net + net, closed.Paid(id).refunded)])
  }

  /** The checks on a fill, in source order; what the maker would net. */
  function VetFill(book: Book, env: Env, taker: Address, o: Order, fill: int, gross: int): Result<int> {
    var open :- if o.Live() then Ok(o) else Err(OrderNotOpen);
    :- Need(taker !in open.excluded && taker != o.maker, ExcludedCounterparty);
    :- Need(env.now <= o.expiry, OrderExpired);
    :- Need(0 < fill && 0 < gross, InvalidAmount);
    :- Need(fill <= o.remaining, FillExceedsRemaining);
    var net := gross - Fee(book.fee, gross);
    var floor :- RequiredPayment(o, env, fill);
    :- Need(floor <= net, if o.terms.Fixed? then InsufficientOutput else OracleSlippageExceeded);
    :- Need(0 < net, InvalidAmount);
    Ok(net)
  }

  /** Fill part of an order: the taker pays `gross`, the maker nets it less the fee. */
  function Fill(w: World, taker: Address, id: nat, fill: int, gross: int): Result<World> {
    var o :- w.book.Read(id);
    var net :- VetFill(w.book, w.env, taker, o, fill, gross);
    var paid :- PayWithFee(w.bal, o.tokenOut, taker, o.maker, w.book.vault, net, gross - net);
    var bal :- Transfer(paid, o.tokenIn, w.book.self, taker, fill);
    Ok(w.(bal := bal, book := Consume(w.book, id, fill, net)))
  }

  /** fill_order: take everything that is left. */
  function FillAll(w: World, taker: Address, id: nat, gross: int): Result<World> {
    var o :- w.book.Read(id);
    Fill(w, taker, id, o.remaining, gross)
  }

  // ─── Closing ────────────────────────────────────────

  /** Empty an order under a closing status, crediting `refund` to its history. */
  function Close(book: Book, id: nat, status: Status, refund: nat): Book
    requires id in book.orders
  {
    var o' := book.orders[id].(remaining := 0, status := status);
    var written := book.(
      orders := book.orders[id := o'],
      receipts := book.receipts[id := Receipt(book.Paid(id).net, book.Paid(id).refunded + refund)]);
    CloseIndexes(written, o')
  }

  function Cancel(w: World, id: nat): Result<World> {
    var o :- w.book.Read(id);
    :- Need(o.Live(), OrderNotOpen);
    var bal :- Transfer(w.bal, o.tokenIn, w.book.self, o.maker, o.remaining);
    Ok(w.(bal := bal, book := Close(w.book, id, Cancelled, o.remaining)))
  }

  function Expire(w: World, id: nat): Result<World> {
    var o :- w.book.Read(id);
    :- Need(o.Live(), OrderNotOpen);
    :- Need(o.expiry < w.env.now, OrderNotExpired);
    var bal :- if 0 < o.remaining
               then Transfer(w.bal, o.tokenIn, w.book.self, o.maker, o.remaining)
               else Ok(w.bal);
    Ok(w.(bal := bal, book := Close(w.book, id, Expired, o.remaining)))
  }

  /** What claim_expired_timer hands the router: the escrow and its floor. */
  datatype Claim = Claim(id: nat, maker: Address, tokenIn: Address, tokenOut: Address, amount: nat, minOut: nat)

  function ClaimTimer(w: World, id: nat): Result<(World, Claim)> {
    var o :- w.book.Read(id);
    :- Need(o.Live(), OrderNotOpen);
    :- Need(o.autoRouteAfter != 0 && o.autoRouteAfter < w.env.now, TimerNotExpired);
    :- Need(w.env.now <= o.expiry, OrderExpired);
    var minOut :- RequiredPayment(o, w.env, o.remaining);
    var bal :- Transfer(w.bal, o.tokenIn, w.book.self, w.book.router, o.remaining);
    Ok((w.(bal := bal, book := Close(w.book, id, Routed, 0)),
        Claim(id, o.maker, o.tokenIn, o.tokenOut, o.remaining, minOut)))
  }

  // ─── Matching ───────────────────────────────────────

  datatype FillSpec = FillSpec(id: nat, fill: int, gross: int)

  /** Run a plan of fills against the reverse side of a request; returns the world
      and what was spent. */
  function MatchFrom(w: World, r: Request, fills: seq<FillSpec>, spent: int): Result<(World, int)>
    decreases |fills|
  {
    if fills == [] then Ok((w, spent))
    else
      var spec := fills[0];
      :- Need(0 < spec.fill && 0 < spec.gross, InvalidAmount);
      var o :- w.book.Read(spec.id);
      :- Need(o.tokenIn == r.tokenOut && o.tokenOut == r.tokenIn, MatchWrongPair);
      :- Need(spent + spec.gross <= I128_MAX, Overflow);
      :- Need(spent + spec.gross <= r.amountIn, MatchExceedsBudget);
      var w' :- Fill(w, r.maker, spec.id, spec.fill, spec.gross);
      MatchFrom(w', r, fills[1..], spent + spec.gross)
  }

  /** Fill the reverse side, then escrow the remainder as a new order. */
  function MatchAndPlace(w: World, r: Request, fills: seq<FillSpec>): Result<World> {
    var (w', spent) :- if 0 < r.amountIn then MatchFrom(w, r, fills, 0) else Err(InvalidAmount);
    var remainder := r.amountIn - spent;
    if 0 < remainder then Place(w', r.(amountIn := remainder)) else Ok(w')
  }

  function SetFee(w: World, rate: int): Result<World> {
    if 0 <= rate <= MAX_FEE_PER_100K then Ok(w.(book := w.book.(fee := rate))) else Err(FeeAboveCap)
  }

  function SetMinOrder(w: World, token: Address, amount: int): Result<World> {
    if amount < 0 then Err(InvalidAmount)
    else Ok(w.(book := w.book.(minOrder := if amount == 0 then w.book.minOrder - {token}
                                           else w.book.minOrder[token := amount])))
  }
}
