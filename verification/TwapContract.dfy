/** The TwapBook contract as it runs. Each entry point is proved to do exactly what
    its function in TwapBook says, and a failing one to leave everything as it was. */
module TwapContract {
  import opened Results
  import opened MulDiv
  import opened Chain
  import opened Host
  import opened Venues
  import opened VenueCalls
  import opened SwapBook
  import opened TwapBook

  class Contract {
    const self: Address
    const vault: Address
    const host: Host
    var fee: TwapFee
    var venues: Registry
    var nextId: nat
    var orders: map<nat, Twap>
    var active: seq<nat>
    ghost var slices: map<nat, nat>

    constructor (self: Address, vault: Address, host: Host)
      ensures this.host == host
      ensures State() == TwapState(self, vault, 100, map[], 1, map[], [], map[])
    {
      this.self, this.vault, this.host := self, vault, host;
      fee, venues, nextId, orders, active, slices := 100, map[], 1, map[], [], map[];
    }

    ghost function State(): TwapState
      reads this
    {
      TwapState(self, vault, fee, venues, nextId, orders, active, slices)
    }

    ghost function World(): TwapWorld
      reads this, host
    {
      TwapWorld(host.env, host.bal, State())
    }

    method CheckPlacement(r: TwapRequest) returns (res: Result<Twap>)
      ensures res == AdmitTwap(World(), r)
    {
      var now := host.env.now;
      if r.totalIn <= 0 { return Err(InvalidAmount); }
      if r.tokenIn == r.tokenOut { return Err(SameToken); }
      if r.endLedger < now + MIN_DURATION_LEDGERS { return Err(InvalidSchedule); }
      if r.maxSliceIn <= 0 || r.totalIn < r.maxSliceIn { return Err(InvalidParams); }
      if r.minSliceGap == 0 || MAX_PACE_TOLERANCE_BPS < r.paceToleranceBps { return Err(InvalidParams); }
      var limit: Limit;
      if 0 < r.limitNum && 0 < r.limitDen {
        limit := FixedLimit(r.limitNum, r.limitDen);
      } else {
        if r.limitNum != 0 || r.limitDen != 0 { return Err(InvalidPricing); }
        if r.slippageBps == 0 || MAX_SLIPPAGE_BPS < r.slippageBps { return Err(InvalidPricing); }
        limit := OracleBound(r.slippageBps);
        var price := FreshPrice(host.env, Pair(r.tokenIn, r.tokenOut));
        if price.Err? { return Err(price.error); }
      }
      if MAX_ACTIVE_ORDERS <= |active| { return Err(BookFull); }
      res := Ok(Twap(nextId, r.maker, r.tokenIn, r.tokenOut, r.totalIn, 0, 0, now, r.endLedger, limit,
                     r.maxSliceIn, r.minSliceGap, r.paceToleranceBps, 0, Active));
    }

    method PlaceOrder(r: TwapRequest) returns (res: Result<nat>)
      modifies this`nextId, this`orders, this`active, host`bal
      ensures res.Ok? ==> PlaceTwap(old(World()), r) == Ok(World()) && res.value == old(nextId)
      ensures res.Err? ==> PlaceTwap(old(World()), r) == Err(res.error) && World() == old(World())
    {
      var admitted := CheckPlacement(r);
      if admitted.Err? { return Err(admitted.error); }
      var o := admitted.value;
      assert o.id == nextId;
      hide AdmitTwap, Transfer;
      var moved := host.MakeTransfer(o.tokenIn, o.maker, self, o.totalIn);
      if moved.Err? { return Err(moved.error); }
      nextId := o.id + 1;
      orders := orders[o.id := o];
      active := active + [o.id];
      res := Ok(o.id);
    }

    method Deindex(id: nat)
      modifies this`active
      ensures active == Without(old(active), id)
    {
      var next := [];
      assert active[0..] == active;
      for i := 0 to |active|
        invariant active == old(active)
        invariant next + Without(active[i..], id) == Without(active, id)
      {
        assert active[i..][0] == active[i] && active[i..][1..] == active[i + 1..];
        if active[i] != id {
          next := next + [active[i]];
        }
      }
      assert active[|active|..] == [] && next + [] == next;
      active := next;
    }

    /** Trade a slice and settle it; a failure midway is undone by the entry point. */
    method Sell(o: Twap, amount: nat, segments: seq<Segment>, outs: seq<int>) returns (res: Result<int>)
      modifies host`bal
      ensures var run := SellSlice(old(World()), o, amount, segments, outs);
              (res.Ok? ==> run == Ok(Sold(host.bal, res.value))) && (res.Err? ==> run == Err(res.error))
    {
      hide Execute, Transfer, Ceil, SliceFloor;
      var out := ExecuteSegments(host, self, venues, o.tokenIn, o.tokenOut, segments, outs);
      if out.Err? { return Err(out.error); }
      if out.value < 0 { return Err(Trap); }
      var charged := Ceil(out.value, fee, FEE_DENOMINATOR);
      var net := out.value - charged;
      var floor := SliceFloor(o, host.env, amount);
      if floor.Err? { return Err(floor.error); }
      if net < floor.value { return Err(InsufficientOutput); }
      var moved := host.MakeTransfer(o.tokenOut, self, o.maker, net);
      if moved.Err? { return Err(moved.error); }
      if 0 < charged {
        moved := host.MakeTransfer(o.tokenOut, self, vault, charged);
        if moved.Err? { return Err(moved.error); }
      }
      res := Ok(net);
    }

    /** Cadence, size and pace, before anything trades. */
    method VetSlice(o: Twap, amount: int) returns (res: Outcome)
      ensures res == CheckSlice(o, host.env.now, amount)
    {
      var now := host.env.now;
      if o.status != Active { return Fail(OrderNotActive); }
      if o.endLedger < now { return Fail(OrderExpired); }
      if 0 < o.lastSliceLedger && now < o.lastSliceLedger + o.minSliceGap { return Fail(SliceTooEarly); }
      var remaining := o.totalIn - o.filledIn;
      if amount <= 0 || remaining < amount { return Fail(InvalidAmount); }
      if o.maxSliceIn < amount { return Fail(SliceExceedsCap); }
      if now < o.startLedger || o.endLedger <= o.startLedger { return Fail(Trap); }
      var onSchedule := Floor(o.totalIn, now - o.startLedger, o.endLedger - o.startLedger);
      var headroom := Floor(o.totalIn, o.paceToleranceBps, BPS_DENOMINATOR);
      if onSchedule + headroom < o.filledIn + amount { return Fail(AheadOfSchedule); }
      res := Pass;
    }

    method RecordSlice(id: nat, amount: nat, net: int)
      requires id in orders
      modifies this`orders, this`active, this`slices
      ensures State() == Advance(old(State()), id, amount, net, host.env.now)
    {
      var o := orders[id];
      var filled := o.filledIn + amount;
      orders := orders[id := o.(filledIn := filled, receivedOut := o.receivedOut + net, lastSliceLedger := host.env.now,
                                status := if filled == o.totalIn then Completed else o.status)];
      slices := slices[id := State().Slices(id) + 1];
      if filled == o.totalIn {
        Deindex(id);
      }
    }

    method SliceOrder(id: nat, amount: int, segments: seq<Segment>, outs: seq<int>) returns (res: Result<int>)
      modifies this`orders, this`active, this`slices, host`bal
      ensures res.Ok? ==> ExecuteSlice(old(World()), id, amount, segments, outs) == Ok(World())
                          && id in orders && id in old(orders)
                          && res.value == orders[id].receivedOut - old(orders)[id].receivedOut
      ensures res.Err? ==> ExecuteSlice(old(World()), id, amount, segments, outs) == Err(res.error)
                           && World() == old(World())
    {
      if id !in orders { return Err(OrderNotFound); }
      var o := orders[id];
      var vetted := VetSlice(o, amount);
      if vetted.Fail? { return Err(vetted.error); }
      assert 0 < amount;
      hide CheckSlice, Validate, SellSlice, Advance;
      var valid := ValidateSegments(segments, amount);
      if valid.Fail? { return Err(valid.error); }
      var saved := host.bal;
      res := Sell(o, amount, segments, outs);
      if res.Err? {
        host.bal := saved;
      } else {
        RecordSlice(id, amount, res.value);
      }
    }

    method Refund(o: Twap, status: TwapStatus) returns (res: Result<()>)
      modifies this`orders, this`active, host`bal
      ensures res.Ok? ==> RefundTwap(old(World()), o, status) == Ok(World())
      ensures res.Err? ==> RefundTwap(old(World()), o, status) == Err(res.error) && World() == old(World())
    {
      hide Transfer;
      var remaining := o.totalIn - o.filledIn;
      res := Ok(());
      if 0 < remaining {
        res := host.MakeTransfer(o.tokenIn, self, o.maker, remaining);
        if res.Err? { return; }
      }
      orders := orders[o.id := o.(status := status)];
      Deindex(o.id);
    }

    method CancelOrder(id: nat) returns (res: Result<()>)
      modifies this`orders, this`active, host`bal
      ensures res.Ok? ==> CancelTwap(old(World()), id) == Ok(World())
      ensures res.Err? ==> CancelTwap(old(World()), id) == Err(res.error) && World() == old(World())
    {
      if id !in orders { return Err(OrderNotFound); }
      if orders[id].status != Active { return Err(OrderNotActive); }
      res := Refund(orders[id], Withdrawn);
    }

    method ExpireOrder(id: nat) returns (res: Result<()>)
      modifies this`orders, this`active, host`bal
      ensures res.Ok? ==> ExpireTwap(old(World()), id) == Ok(World())
      ensures res.Err? ==> ExpireTwap(old(World()), id) == Err(res.error) && World() == old(World())
    {
      if id !in orders { return Err(OrderNotFound); }
      if orders[id].status != Active { return Err(OrderNotActive); }
      if host.env.now <= orders[id].endLedger { return Err(OrderNotExpired); }
      res := Refund(orders[id], Lapsed);
    }
  }
}
