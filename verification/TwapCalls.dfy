/** Each TwapBook call on its own: what a placement stores, exactly when a slice is
    accepted, and what it must bring. */
module TwapCalls {
  import opened Results
  import opened MulDiv
  import opened Chain
  import opened Venues
  import opened SwapBook
  import opened TwapBook
  import opened TwapRuns
  import RouterLegs

  // ─── Placing ────────────────────────────────────────

  /** A limit as the request gives it: both terms of a price, or neither and a slippage. */
  predicate LimitOf(r: TwapRequest, limit: Limit) {
    match limit
    case FixedLimit(num, den) => num == r.limitNum && den == r.limitDen
    case OracleBound(slippage) => r.limitNum == 0 && r.limitDen == 0 && slippage == r.slippageBps
  }

  predicate LimitOk(env: Env, r: TwapRequest) {
    || (0 < r.limitNum && 0 < r.limitDen)
    || (r.limitNum == 0 && r.limitDen == 0 && 1 <= r.slippageBps <= 1000
        && FreshPrice(env, Pair(r.tokenIn, r.tokenOut)).Ok?)
  }

  /** place_twap stores the order exactly as asked, starting now and unfilled. */
  lemma PlaceTwapLists(w: TwapWorld, r: TwapRequest, w': TwapWorld)
    requires PlaceTwap(w, r) == Ok(w')
    ensures w'.book == w.book.(nextId := w.book.nextId + 1, orders := w'.book.orders,
                               active := w.book.active + [w.book.nextId])
    ensures w.book.nextId in w'.book.orders
    ensures w'.book.orders == w.book.orders[w.book.nextId := w'.book.orders[w.book.nextId]]
    ensures var o := w'.book.orders[w.book.nextId];
            && o.id == w.book.nextId && o.maker == r.maker && o.tokenIn == r.tokenIn && o.tokenOut == r.tokenOut
            && o.totalIn == r.totalIn && o.filledIn == 0 && o.receivedOut == 0
            && o.startLedger == w.env.now && o.endLedger == r.endLedger && o.lastSliceLedger == 0
            && LimitOf(r, o.limit) && o.maxSliceIn == r.maxSliceIn && o.minSliceGap == r.minSliceGap
            && o.paceToleranceBps == r.paceToleranceBps && o.status == Active
  {
    hide Transfer, FreshPrice;
  }

  lemma PlaceTwapAcceptedIff(w: TwapWorld, r: TwapRequest)
    ensures PlaceTwap(w, r).Ok? <==>
            && 0 < r.totalIn <= Bal(w.bal, r.tokenIn, r.maker) && r.tokenIn != r.tokenOut
            && w.env.now + 60 <= r.endLedger && 0 < r.maxSliceIn <= r.totalIn && 0 < r.minSliceGap
            && r.paceToleranceBps <= 5000 && LimitOk(w.env, r) && |w.book.active| < 500
  {
    hide Bal, FreshPrice, EnlistTwap;
  }

  // ─── Price ──────────────────────────────────────────

  /** The price a slice is held to: its limit, or the oracle's fair value less the order's
      slippage. */
  ghost predicate NetMeetsLimit(o: Twap, env: Env, amount: nat, net: int) {
    match o.limit
    case FixedLimit(num, den) => amount * num <= net * den && amount * num <= I128_MAX * den
    case OracleBound(slippage) =>
      && FreshPrice(env, o.Market()).Ok?
      && (var price := FreshPrice(env, o.Market()).value;
          var fair := Floor(amount, price.num, price.den);
          fair <= I128_MAX && fair * (10_000 - slippage) <= net * 10_000)
  }

  lemma SliceFloorMeansPrice(o: Twap, env: Env, amount: nat, net: int)
    ensures SliceFloor(o, env, amount).Ok? && SliceFloor(o, env, amount).value <= net
            <==> NetMeetsLimit(o, env, amount, net)
  {
    match o.limit
    case FixedLimit(num, den) =>
      CeilGalois(amount, num, den, net);
      CeilGalois(amount, num, den, I128_MAX);
      hide Ceil;
    case OracleBound(slippage) =>
      if FreshPrice(env, o.Market()).Ok? {
        var price := FreshPrice(env, o.Market()).value;
        CeilGalois(Floor(amount, price.num, price.den), BPS_DENOMINATOR - slippage, BPS_DENOMINATOR, net);
      }
      hide Ceil, Floor;
  }

  /** The fee is the exact rate of the output, rounded up. */
  lemma SliceFeeExact(fee: TwapFee, out: nat)
    ensures out * fee <= SliceFee(fee, out) * 100_000 < out * fee + 100_000
    ensures 0 <= SliceFee(fee, out) <= out
  {
    CeilBounds(out, fee, FEE_DENOMINATOR);
    CeilGalois(out, fee, FEE_DENOMINATOR, out);
    hide Ceil;
    assert out * fee <= out * FEE_DENOMINATOR;
  }

  // ─── Slices ─────────────────────────────────────────

  /** A slice advances its order by exactly what it sold and brought, completes it exactly
      when nothing is left, and changes no other. */
  lemma SliceAdvances(w: TwapWorld, id: nat, amount: int, segments: seq<Segment>, outs: seq<int>, w': TwapWorld)
    requires ExecuteSlice(w, id, amount, segments, outs) == Ok(w')
    ensures |segments| <= |outs| && id in w.book.orders && id in w'.book.orders
    ensures w'.env == w.env && w'.book.orders == w.book.orders[id := w'.book.orders[id]]
    ensures var o, o', out := w.book.orders[id], w'.book.orders[id], Sum(outs[..|segments|]);
            && 0 < amount && 0 <= out
            && o' == o.(filledIn := o.filledIn + amount, lastSliceLedger := w.env.now,
                        receivedOut := o.receivedOut + out - SliceFee(w.book.fee, out),
                        status := if o.filledIn + amount == o.totalIn then Completed else o.status)
            && NetMeetsLimit(o, w.env, amount, o'.receivedOut - o.receivedOut)
  {
    hide SellSlice, CheckSlice, Without, SliceFee, SliceFloor, NetMeetsLimit;
    var o := w.book.orders[id];
    CheckedSlice(o, w.env.now, amount);
    SellPays(w, o, amount, segments, outs);
    SliceFloorMeansPrice(o, w.env, amount, SellSlice(w, o, amount, segments, outs).value.net);
  }

  lemma CheckedSlice(o: Twap, now: nat, amount: int)
    ensures CheckSlice(o, now, amount).Pass? ==> o.status == Active && 0 < amount <= o.totalIn - o.filledIn
  {
  }

  /** So an oracle-bound slice raises what its maker received by at least fair value less
      the order's slippage, at a fresh price. */
  lemma OracleSlicePays(w: TwapWorld, id: nat, amount: int, segments: seq<Segment>, outs: seq<int>, w': TwapWorld)
    requires ExecuteSlice(w, id, amount, segments, outs) == Ok(w')
    requires id in w.book.orders && w.book.orders[id].limit.OracleBound?
    ensures var o := w.book.orders[id];
            && id in w'.book.orders && 0 < amount && FreshPrice(w.env, o.Market()).Ok?
            && var price := FreshPrice(w.env, o.Market()).value;
            Floor(amount, price.num, price.den) * (10_000 - o.limit.slippageBps)
            <= (w'.book.orders[id].receivedOut - o.receivedOut) * 10_000
  {
    hide ExecuteSlice;
    SliceAdvances(w, id, amount, segments, outs, w');
  }

  /** Status, dates, cadence, size and pace in explicit terms. */
  predicate SliceOk(o: Twap, now: nat, amount: int) {
    && o.status == Active && o.startLedger <= now <= o.endLedger && o.startLedger < o.endLedger
    && (0 < o.lastSliceLedger ==> o.lastSliceLedger + o.minSliceGap <= now)
    && 0 < amount <= o.maxSliceIn && o.filledIn + amount <= o.totalIn
    && o.filledIn + amount <= o.totalIn * (now - o.startLedger) / (o.endLedger - o.startLedger)
                              + o.totalIn * o.paceToleranceBps / 10_000
  }

  lemma CheckSliceIff(o: Twap, now: nat, amount: int)
    ensures CheckSlice(o, now, amount).Pass? <==> SliceOk(o, now, amount)
  {
  }

  /** A slice is accepted exactly when it is active, timely, within its caps and on pace,
      its segments sum to it, every venue delivers, and the net meets the order's price. */
  lemma SliceAcceptedIff(w: TwapWorld, id: nat, amount: int, segments: seq<Segment>, outs: seq<int>)
    requires TwapInv(w) && forall t :: 0 <= TwapSurplus(w, t)
    ensures ExecuteSlice(w, id, amount, segments, outs).Ok? <==>
            && id in w.book.orders
            && var o := w.book.orders[id];
            && SliceOk(o, w.env.now, amount)
            && segments != [] && (forall s <- segments :: 0 < s.amountIn && 0 <= s.minOut)
            && Venues.Total(segments) == amount && RouterLegs.Delivered(w.book.venues, segments, outs)
            && var out := Sum(outs[..|segments|]);
            0 <= out && NetMeetsLimit(o, w.env, amount, out - SliceFee(w.book.fee, out))
  {
    hide TwapInv, TwapSurplus, SellSlice, CheckSlice, NetMeetsLimit, Advance, Sum, SliceOk, SliceFee;
    if id in w.book.orders {
      var o := w.book.orders[id];
      CheckSliceIff(o, w.env.now, amount);
      CheckedSlice(o, w.env.now, amount);
      if CheckSlice(o, w.env.now, amount).Pass? && WellFormed(segments) && Venues.Total(segments) == amount {
        SellSliceIff(w, id, segments, outs);
      }
    }
  }

  /** The contract holds what its Active orders have left to sell, and no token short. */
  lemma HoldsUnfilled(w: TwapWorld, id: nat, t: Address)
    requires TwapInv(w) && id in w.book.orders && 0 <= TwapSurplus(w, t)
    ensures 0 <= Bal(w.bal, t, w.book.self)
    ensures var o := w.book.orders[id];
            o.status == Active && o.tokenIn == t ==> o.totalIn - o.filledIn <= Bal(w.bal, t, w.book.self)
  {
    forall k | k in w.book.orders ensures 0 <= OpenWeight(t)(w.book.orders[k]) {
      assert Kept(w.book, k, w.env.now);
    }
    hide Kept, ActiveExact, Bal;
    Sums.TotalNonNegative(w.book.orders, OpenWeight(t), w.book.nextId);
    Sums.TotalCovers(w.book.orders, OpenWeight(t), w.book.nextId, id);
  }

  lemma SellSliceIff(w: TwapWorld, id: nat, segments: seq<Segment>, outs: seq<int>)
    requires TwapInv(w) && (forall t :: 0 <= TwapSurplus(w, t)) && WellFormed(segments)
    requires id in w.book.orders
    requires w.book.orders[id].status == Active
    requires 0 < Venues.Total(segments) <= w.book.orders[id].totalIn - w.book.orders[id].filledIn
    ensures var o, amount, out := w.book.orders[id], Venues.Total(segments), Sum(outs[..Min(|segments|, |outs|)]);
            SellSlice(w, o, amount, segments, outs).Ok? <==>
            && RouterLegs.Delivered(w.book.venues, segments, outs) && 0 <= out
            && NetMeetsLimit(o, w.env, amount, out - SliceFee(w.book.fee, out))
  {
    hide TwapInv, TwapSurplus, SliceFloor, SliceFee, PayWithFee, Execute, Bal, NetMeetsLimit, Sum;
    var o, amount := w.book.orders[id], Venues.Total(segments);
    var start, self := Flow(w.bal, outs, 0), w.book.self;
    OrderFacts(w, id);
    HoldsUnfilled(w, id, o.tokenIn);
    HoldsUnfilled(w, id, o.tokenOut);
    RouterLegs.ExecuteRunsIff(start, self, w.book.venues, o.tokenIn, o.tokenOut, segments);
    var run := Execute(start, self, w.book.venues, o.tokenIn, o.tokenOut, segments);
    if run.Ok? {
      ExecuteMoves(start, self, w.book.venues, o.tokenIn, o.tokenOut, segments);
      var out := run.value.out;
      SliceFeeExact(w.book.fee, out);
      SliceFloorMeansPrice(o, w.env, amount, out - SliceFee(w.book.fee, out));
      PayWithFeeSucceeds(run.value.bal, o.tokenOut, self, o.maker, w.book.vault, out - SliceFee(w.book.fee, out),
                         SliceFee(w.book.fee, out));
    }
  }

  // ─── Closing ────────────────────────────────────────

  /** A cancel or an expiry is refused only on an order that is not Active, or, for an
      expiry, not past its window. */
  lemma CloseAcceptedIff(w: TwapWorld, id: nat)
    requires TwapInv(w) && forall t :: 0 <= TwapSurplus(w, t)
    ensures CancelTwap(w, id).Ok? <==> id in w.book.orders && w.book.orders[id].status == Active
    ensures ExpireTwap(w, id).Ok? <==>
            id in w.book.orders && w.book.orders[id].status == Active && w.book.orders[id].endLedger < w.env.now
  {
    hide TwapInv, TwapSurplus, Bal, Without;
    if id in w.book.orders {
      HoldsUnfilled(w, id, w.book.orders[id].tokenIn);
    }
  }
}
