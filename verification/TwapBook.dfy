/** TwapBook: time-weighted execution of large orders. Anyone may execute a slice;
    the contract enforces cadence, size, pace and price. */
module TwapBook {
  import opened Results
  import opened MulDiv
  import opened Chain
  import opened Venues
  import opened SwapBook

  const MAX_TWAP_FEE_PER_100K := 100
  const MIN_DURATION_LEDGERS := 60
  const MAX_PACE_TOLERANCE_BPS := 5000
  const MAX_ACTIVE_ORDERS := 500

  type TwapFee = f: nat | f <= MAX_TWAP_FEE_PER_100K

  datatype TwapStatus = Active | Completed | Withdrawn | Lapsed

  /** A limit price as token_out per token_in, or the oracle less a slippage. */
  datatype Limit = FixedLimit(num: pos, den: pos) | OracleBound(slippageBps: Slippage)

  datatype Twap = Twap(
    id: nat, maker: Address, tokenIn: Address, tokenOut: Address,
    totalIn: pos, filledIn: nat, receivedOut: int, startLedger: nat, endLedger: nat, limit: Limit,
    maxSliceIn: pos, minSliceGap: pos, paceToleranceBps: nat, lastSliceLedger: nat, status: TwapStatus)
  {
    function Market(): Pair {
      Pair(tokenIn, tokenOut)
    }
  }

  /** `slices` is history: how many slices each order has had. */
  datatype TwapState = TwapState(
    self: Address, vault: Address, fee: TwapFee, venues: Registry, nextId: nat,
    orders: map<nat, Twap>, active: seq<nat>, slices: map<nat, nat>)
  {
    function Slices(id: nat): nat {
      if id in slices then slices[id] else 0
    }

    function ReadTwap(id: nat): Result<Twap> {
      if id in orders then Ok(orders[id]) else Err(OrderNotFound)
    }
  }

  datatype TwapWorld = TwapWorld(env: Env, bal: Balances, book: TwapState)

  // ─── Placing ────────────────────────────────────────

  datatype TwapRequest = TwapRequest(
    maker: Address, tokenIn: Address, tokenOut: Address, totalIn: int, endLedger: nat,
    limitNum: int, limitDen: int, slippageBps: nat, maxSliceIn: int, minSliceGap: nat, paceToleranceBps: nat)

  function ParseLimit(r: TwapRequest): Result<Limit> {
    if 0 < r.limitNum && 0 < r.limitDen then Ok(FixedLimit(r.limitNum, r.limitDen))
    else if r.limitNum != 0 || r.limitDen != 0 then Err(InvalidPricing)
    else if 1 <= r.slippageBps <= MAX_SLIPPAGE_BPS then Ok(OracleBound(r.slippageBps))
    else Err(InvalidPricing)
  }

  function AdmitTwap(w: TwapWorld, r: TwapRequest): Result<Twap> {
    var totalIn: pos :- if 0 < r.totalIn then Ok(r.totalIn) else Err(InvalidAmount);
    :- Need(r.tokenIn != r.tokenOut, SameToken);
    :- Need(w.env.now + MIN_DURATION_LEDGERS <= r.endLedger, InvalidSchedule);
    :- Need(0 < r.maxSliceIn <= r.totalIn, InvalidParams);
    :- Need(0 < r.minSliceGap && r.paceToleranceBps <= MAX_PACE_TOLERANCE_BPS, InvalidParams);
    var limit :- ParseLimit(r);
    var _ :- if limit.OracleBound? then FreshPrice(w.env, Pair(r.tokenIn, r.tokenOut)) else Ok(Price(1, 1, 0));
    :- Need(|w.book.active| < MAX_ACTIVE_ORDERS, BookFull);
    Ok(Twap(w.book.nextId, r.maker, r.tokenIn, r.tokenOut, totalIn, 0, 0, w.env.now, r.endLedger, limit,
            r.maxSliceIn, r.minSliceGap, r.paceToleranceBps, 0, Active))
  }

  function EnlistTwap(book: TwapState, o: Twap): TwapState {
    book.(nextId := book.nextId + 1, orders := book.orders[o.id := o], active := book.active + [o.id])
  }

  function PlaceTwap(w: TwapWorld, r: TwapRequest): Result<TwapWorld> {
    var o :- AdmitTwap(w, r);
    var bal :- Transfer(w.bal, o.tokenIn, o.maker, w.book.self, o.totalIn);
    Ok(w.(bal := bal, book := EnlistTwap(w.book, o)))
  }

  // ─── Slices ─────────────────────────────────────────

  /** The schedule's level at a ledger plus the maker's tolerance band. */
  function OnSchedule(o: Twap, now: nat): nat
    requires o.startLedger <= now && o.startLedger < o.endLedger
  {
    Floor(o.totalIn, now - o.startLedger, o.endLedger - o.startLedger)
  }

  function Headroom(o: Twap): nat {
    Floor(o.totalIn, o.paceToleranceBps, BPS_DENOMINATOR)
  }

  /** Status, cadence, size and pace: everything a slice must pass before it trades. */
  function CheckSlice(o: Twap, now: nat, amount: int): Outcome {
    if o.status != Active then Fail(OrderNotActive)
    else if o.endLedger < now then Fail(OrderExpired)
    else if 0 < o.lastSliceLedger && now < o.lastSliceLedger + o.minSliceGap then Fail(SliceTooEarly)
    else if amount <= 0 || o.totalIn - o.filledIn < amount then Fail(InvalidAmount)
    else if o.maxSliceIn < amount then Fail(SliceExceedsCap)
    else if now < o.startLedger || o.endLedger <= o.startLedger then Fail(Trap)
    else if OnSchedule(o, now) + Headroom(o) < o.filledIn + amount then Fail(AheadOfSchedule)
    else Pass
  }

  /** The least net token_out a slice must bring the maker. */
  function SliceFloor(o: Twap, env: Env, amount: nat): Result<nat> {
    match o.limit
    case FixedLimit(num, den) =>
      var floor := Ceil(amount, num, den);
      if floor <= I128_MAX then Ok(floor) else Err(Trap)
    case OracleBound(slippage) =>
      var price :- FreshPrice(env, o.Market());
      var fair := Floor(amount, price.num, price.den);
      if fair <= I128_MAX then Ok(Ceil(fair, BPS_DENOMINATOR - slippage, BPS_DENOMINATOR)) else Err(Trap)
  }

  function SliceFee(fee: TwapFee, out: nat): nat {
    Ceil(out, fee, FEE_DENOMINATOR)
  }

  /** Advance an order by a slice, closing it when it is complete. */
  function Advance(book: TwapState, id: nat, amount: nat, net: int, now: nat): TwapState
    requires id in book.orders
  {
    var o := book.orders[id];
    var filled := o.filledIn + amount;
    var o' := o.(filledIn := filled, receivedOut := o.receivedOut + net, lastSliceLedger := now,
                 status := if filled == o.totalIn then Completed else o.status);
    book.(orders := book.orders[id := o'], slices := book.slices[id := book.Slices(id) + 1],
          active := if filled == o.totalIn then Without(book.active, id) else book.active)
  }

  datatype Sold = Sold(bal: Balances, net: int)

  /** Trade a slice through the venues and pay the maker and the vault. */
  function SellSlice(w: TwapWorld, o: Twap, amount: nat, segments: seq<Segment>, outs: seq<int>): Result<Sold> {
    var f :- Execute(Flow(w.bal, outs, 0), w.book.self, w.book.venues, o.tokenIn, o.tokenOut, segments);
    :- Need(0 <= f.out, Trap);
    var fee := SliceFee(w.book.fee, f.out);
    var net := f.out - fee;
    var floor :- SliceFloor(o, w.env, amount);
    :- Need(floor <= net, InsufficientOutput);
    var bal :- PayWithFee(f.bal, o.tokenOut, w.book.self, o.maker, w.book.vault, net, fee);
    Ok(Sold(bal, net))
  }

  function ExecuteSlice(w: TwapWorld, id: nat, amount: int, segments: seq<Segment>, outs: seq<int>): Result<TwapWorld> {
    var o :- w.book.ReadTwap(id);
    :- CheckSlice(o, w.env.now, amount);
    :- Validate(segments, amount);
    var sold :- SellSlice(w, o, amount, segments, outs);
    Ok(w.(bal := sold.bal, book := Advance(w.book, id, amount, sold.net, w.env.now)))
  }

  // ─── Closing ────────────────────────────────────────

  /** Refund the unfilled remainder and close; the fill level stays on record. */
  function RefundTwap(w: TwapWorld, o: Twap, status: TwapStatus): Result<TwapWorld> {
    var remaining := o.totalIn - o.filledIn;
    var bal :- if 0 < remaining then Transfer(w.bal, o.tokenIn, w.book.self, o.maker, remaining) else Ok(w.bal);
    Ok(w.(bal := bal, book := w.book.(orders := w.book.orders[o.id := o.(status := status)],
                                      active := Without(w.book.active, o.id))))
  }

  function CancelTwap(w: TwapWorld, id: nat): Result<TwapWorld> {
    var o :- w.book.ReadTwap(id);
    :- Need(o.status == Active, OrderNotActive);
    RefundTwap(w, o, Withdrawn)
  }

  function ExpireTwap(w: TwapWorld, id: nat): Result<TwapWorld> {
    var o :- w.book.ReadTwap(id);
    :- Need(o.status == Active, OrderNotActive);
    :- Need(o.endLedger < w.env.now, OrderNotExpired);
    RefundTwap(w, o, Lapsed)
  }
}
