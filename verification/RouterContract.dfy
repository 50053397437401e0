/** The Router contract as it runs, over the live token ledger and the SwapBook it
    claims from. Each entry point is proved to do exactly what its function in
    Routing says, and a failing one to leave everything as it was. */
module RouterContract {
  import opened Results
  import opened MulDiv
  import opened Chain
  import opened Host
  import opened Venues
  import opened VenueCalls
  import opened Routing
  import SwapBook
  import SwapBookContract

  class Contract {
    const self: Address
    const vault: Address
    const host: Host
    const book: SwapBookContract.Contract
    var fee: SwapBook.FeeRate
    var share: Share
    var venues: Registry

    constructor (self: Address, vault: Address, book: SwapBookContract.Contract)
      ensures this.book == book && this.host == book.host
      ensures State() == Router(self, vault, 0, 2_500, map[])
    {
      this.self, this.vault, this.host, this.book := self, vault, book.host, book;
      fee, share, venues := 0, 2_500, map[];
    }

    ghost function State(): Router
      reads this
    {
      Router(self, vault, fee, share, venues)
    }

    /** Pay the user, then the vault and the partner what is theirs, if anything. */
    method Disburse(token: Address, user: Address, partner: Option<Partner>, s: Split) returns (res: Result<()>)
      modifies host`bal
      ensures var paid := PayOut(State(), old(host.bal), token, user, partner, s);
              (res.Ok? ==> paid == Ok(host.bal)) && (res.Err? ==> paid == Err(res.error))
    {
      hide Transfer;
      res := host.MakeTransfer(token, self, user, s.user);
      if res.Err? { return; }
      if 0 < s.vault {
        res := host.MakeTransfer(token, self, vault, s.vault);
        if res.Err? { return; }
      }
      if 0 < s.partner && partner.Some? {
        res := host.MakeTransfer(token, self, partner.value.account, s.partner);
      }
    }

    /** Charge the fees and pay everyone out of `out`. */
    method Distribute(token: Address, user: Address, partner: Option<Partner>, out: int, estimate: int, minOut: int)
      returns (res: Result<int>)
      modifies host`bal
      ensures var split := Divide(State(), partner, out, estimate);
              var paid := if split.Err? then Err(split.error)
                          else if split.value.user < minOut then Err(InsufficientOutput)
                          else PayOut(State(), old(host.bal), token, user, partner, split.value);
              && (res.Ok? ==> paid == Ok(host.bal) && res.value == split.value.user)
              && (res.Err? ==> paid == Err(res.error))
    {
      hide PayOut, CalculateFee, PartnerFee, SurplusFee;
      var charged := CalculateFee(fee, out);
      var cut := PartnerFee(partner, out);
      var surplus := SurplusFee(share, out, estimate);
      if surplus.Err? { return Err(surplus.error); }
      if I128_MAX < cut { return Err(InvalidAmount); }
      var receives := out - charged - cut - surplus.value;
      if receives < minOut { return Err(InsufficientOutput); }
      var paid := Disburse(token, user, partner, Split(receives, charged + surplus.value, cut));
      res := if paid.Ok? then Ok(receives) else Err(paid.error);
    }

    method RouteThrough(r: Route, outs: seq<int>) returns (res: Result<int>)
      modifies host`bal
      ensures var run := RouteInner(State(), old(host.bal), r, outs);
              && (res.Ok? ==> run.Ok? && run.value.bal == host.bal && run.value.received == res.value)
              && (res.Err? ==> run == Err(res.error) && host.bal == old(host.bal))
    {
      hide Validate, Transfer, Execute, Divide, PayOut;
      if r.amountIn <= 0 || r.minOut <= 0 { return Err(InvalidAmount); }
      if r.tokenIn == r.tokenOut { return Err(SameToken); }
      if 0 < r.estimate && r.estimate < r.minOut { return Err(InvalidEstimate); }
      var valid := ValidateSegments(r.segments, r.amountIn);
      if valid.Fail? { return Err(valid.error); }
      var saved := host.bal;
      var moved := host.MakeTransfer(r.tokenIn, r.user, self, r.amountIn);
      if moved.Err? { return Err(moved.error); }
      var out := ExecuteSegments(host, self, venues, r.tokenIn, r.tokenOut, r.segments, outs);
      if out.Err? {
        host.bal := saved;
        return Err(out.error);
      }
      res := Distribute(r.tokenOut, r.user, r.partner, out.value, r.estimate, r.minOut);
      if res.Err? {
        host.bal := saved;
      }
    }

    /** execute_route. */
    method RoutePlain(r: Route, outs: seq<int>) returns (res: Result<int>)
      modifies host`bal
      ensures var run := ExecuteRoute(State(), old(host.bal), r, outs);
              && (res.Ok? ==> run.Ok? && run.value.bal == host.bal && run.value.received == res.value)
              && (res.Err? ==> run == Err(res.error) && host.bal == old(host.bal))
    {
      res := RouteThrough(r.(partner := None), outs);
    }

    /** execute_route_partner. */
    method RouteWithPartner(r: Route, account: Address, per100k: int, outs: seq<int>) returns (res: Result<int>)
      modifies host`bal
      ensures var run := ExecuteRoutePartner(State(), old(host.bal), r, account, per100k, outs);
              && (res.Ok? ==> run.Ok? && run.value.bal == host.bal && run.value.received == res.value)
              && (res.Err? ==> run == Err(res.error) && host.bal == old(host.bal))
    {
      hide RouteInner;
      if per100k < 0 || MAX_PARTNER_FEE_PER_100K < per100k { return Err(PartnerFeeAboveCap); }
      res := RouteThrough(r.(partner := Some(Partner(account, per100k))), outs);
    }

    /** swap. */
    method SwapSingle(o: Single, outs: seq<int>) returns (res: Result<int>)
      modifies host`bal
      ensures var run := SwapOne(State(), old(host.bal), o, outs);
              && (res.Ok? ==> run.Ok? && run.value.bal == host.bal && run.value.received == res.value)
              && (res.Err? ==> run == Err(res.error) && host.bal == old(host.bal))
    {
      hide RouteInner;
      var segments := [Segment(o.venueId, o.amountIn, o.minOut)];
      res := RoutePlain(Route(o.user, o.tokenIn, o.tokenOut, o.amountIn, o.minOut, segments, None, 0), outs);
    }

    /** One hop: each leg takes its weight of the carry, the last what remains. */
    method SwapLegs(tokenIn: Address, hop: Hop, carry: int, outs: seq<int>) returns (res: Result<(int, seq<int>)>)
      requires hop.legs != []
      modifies host`bal
      ensures var run := ExecuteLegs(Flow(old(host.bal), outs, 0), State(), tokenIn, hop.tokenOut, carry, hop.legs,
                                     carry);
              && (res.Ok? ==> run == Ok(Flow(host.bal, res.value.1, res.value.0)))
              && (res.Err? ==> run == Err(res.error))
    {
      hide Swap;
      var hopOut, remaining, left := 0, carry, outs;
      assert hop.legs[0..] == hop.legs;
      for j := 0 to |hop.legs|
        invariant ExecuteLegs(Flow(old(host.bal), outs, 0), State(), tokenIn, hop.tokenOut, carry, hop.legs, carry)
                  == ExecuteLegs(Flow(host.bal, left, hopOut), State(), tokenIn, hop.tokenOut, carry, hop.legs[j..],
                                 remaining)
      {
        assert hop.legs[j..][0] == hop.legs[j] && hop.legs[j..][1..] == hop.legs[j + 1..];
        var leg := hop.legs[j];
        var legIn := remaining;
        if j != |hop.legs| - 1 {
          if carry * leg.weightBps < 0 || I128_MAX < carry * leg.weightBps { return Err(Trap); }
          legIn := carry * leg.weightBps / WEIGHT_DENOMINATOR;
        }
        if legIn <= 0 { return Err(InvalidAmount); }
        remaining := remaining - legIn;
        var received := SwapOnce(host, self, venues, leg.venueId, tokenIn, hop.tokenOut, legIn, leg.minOut, left,
                                 hopOut);
        if received.Err? { return Err(received.error); }
        left := left[1..];
        hopOut := hopOut + received.value;
      }
      assert hop.legs[|hop.legs|..] == [];
      res := Ok((hopOut, left));
    }

    /** Check every hop before moving any funds. */
    method CheckHops(tokenIn: Address, hops: seq<Hop>) returns (ok: bool)
      ensures ok <==> ValidHops(tokenIn, hops)
    {
      var token := tokenIn;
      assert hops[0..] == hops;
      for i := 0 to |hops|
        invariant ValidHops(tokenIn, hops) == ValidHops(token, hops[i..])
      {
        assert hops[i..][0] == hops[i] && hops[i..][1..] == hops[i + 1..];
        var hop := hops[i];
        if hop.tokenOut == token || hop.legs == [] { return false; }
        var sum := 0;
        assert hop.legs[0..] == hop.legs;
        for j := 0 to |hop.legs|
          invariant forall k :: 0 <= k < j ==> 0 < hop.legs[k].weightBps && 0 <= hop.legs[k].minOut
          invariant Weights(hop.legs) == sum + Weights(hop.legs[j..])
        {
          assert hop.legs[j..][0] == hop.legs[j] && hop.legs[j..][1..] == hop.legs[j + 1..];
          if hop.legs[j].weightBps <= 0 || hop.legs[j].minOut < 0 {
            assert hop.legs[j] in hop.legs;
            return false;
          }
          sum := sum + hop.legs[j].weightBps;
        }
        assert hop.legs[|hop.legs|..] == [];
        if sum != WEIGHT_DENOMINATOR { return false; }
        token := hop.tokenOut;
      }
      assert hops[|hops|..] == [];
      ok := true;
    }

    /** Walk the hops; returns the final token and carry. */
    method WalkHops(tokenIn: Address, amountIn: int, hops: seq<Hop>, outs: seq<int>)
      returns (res: Result<(Address, int)>)
      requires ValidHops(tokenIn, hops)
      modifies host`bal
      ensures var run := ExecuteHops(Flow(old(host.bal), outs, amountIn), State(), tokenIn, hops);
              && (res.Ok? ==>
                    run.Ok? && run.value.bal == host.bal && res.value == (EndToken(tokenIn, hops), run.value.out))
              && (res.Err? ==> run == Err(res.error))
    {
      hide ExecuteLegs;
      var token, carry, left := tokenIn, amountIn, outs;
      assert hops[0..] == hops;
      for i := 0 to |hops|
        invariant ValidHops(token, hops[i..]) && EndToken(tokenIn, hops) == EndToken(token, hops[i..])
        invariant ExecuteHops(Flow(old(host.bal), outs, amountIn), State(), tokenIn, hops)
                  == ExecuteHops(Flow(host.bal, left, carry), State(), token, hops[i..])
      {
        assert hops[i..][0] == hops[i] && hops[i..][1..] == hops[i + 1..];
        var swapped := SwapLegs(token, hops[i], carry, left);
        if swapped.Err? { return Err(swapped.error); }
        token, carry, left := hops[i].tokenOut, swapped.value.0, swapped.value.1;
      }
      assert hops[|hops|..] == [];
      res := Ok((token, carry));
    }

    method RoutePath(p: Path, outs: seq<int>) returns (res: Result<int>)
      modifies host`bal
      ensures var run := ExecutePath(State(), old(host.bal), p, outs);
              && (res.Ok? ==> run.Ok? && run.value.bal == host.bal && run.value.received == res.value)
              && (res.Err? ==> run == Err(res.error) && host.bal == old(host.bal))
    {
      hide Transfer, ExecuteHops, ValidHops, EndToken, Divide, PayOut;
      if p.amountIn <= 0 || p.minOut <= 0 { return Err(InvalidAmount); }
      if 0 < p.estimate && p.estimate < p.minOut { return Err(InvalidEstimate); }
      if p.hops == [] { return Err(InvalidPath); }
      if MAX_PATH_HOPS < |p.hops| { return Err(PathTooLong); }
      var valid := CheckHops(p.tokenIn, p.hops);
      if !valid { return Err(InvalidPath); }
      var saved := host.bal;
      var moved := host.MakeTransfer(p.tokenIn, p.user, self, p.amountIn);
      if moved.Err? { return Err(moved.error); }
      var carried := WalkHops(p.tokenIn, p.amountIn, p.hops, outs);
      if carried.Err? {
        host.bal := saved;
        return Err(carried.error);
      }
      res := Distribute(carried.value.0, p.user, None, carried.value.1, p.estimate, p.minOut);
      if res.Err? {
        host.bal := saved;
      }
    }

    /** route_expired_order: claim, swap, pay; a failure restores the claim too. */
    method RouteExpiredOrder(id: nat, segments: seq<Segment>, outs: seq<int>) returns (res: Result<int>)
      requires book.host == host && book.Keyed()
      modifies book, host`bal
      ensures book.Keyed()
      ensures res.Ok? ==> RouteExpired(State(), old(book.World()), id, segments, outs) == Ok(book.World())
                          && res.value == book.Book().Paid(id).net - old(book.Book()).Paid(id).net
      ensures res.Err? ==> RouteExpired(State(), old(book.World()), id, segments, outs) == Err(res.error)
                           && book.World() == old(book.World())
    {
      hide SettleClaim, SwapBook.ClaimTimer;
      if self != book.router { return Err(Trap); }
      var saved := book.Save();
      ghost var history := book.receipts;
      var claim := book.ClaimExpiredTimer(id);
      if claim.Err? { return Err(claim.error); }
      ClaimPaysNothing(old(book.World()), id);
      res := Settle(claim.value, segments, outs);
      if res.Err? {
        book.Restore(saved, history);
      } else {
        book.RecordPayment(claim.value.id, res.value);
      }
    }

    /** Swap a claimed escrow and pay its maker. */
    method Settle(c: SwapBook.Claim, segments: seq<Segment>, outs: seq<int>) returns (res: Result<int>)
      requires book.host == host
      modifies host`bal
      ensures var run := SettleClaim(State(), old(book.World()), c, segments, outs);
              && (res.Ok? ==>
                    run == Ok(old(book.World()).(bal := host.bal, book := Credited(old(book.Book()), c.id, res.value))))
              && (res.Err? ==> run == Err(res.error))
    {
      hide Validate, Transfer, Execute, CalculateFee;
      var valid := ValidateSegments(segments, c.amount);
      if valid.Fail? { return Err(valid.error); }
      var out := ExecuteSegments(host, self, venues, c.tokenIn, c.tokenOut, segments, outs);
      if out.Err? { return Err(out.error); }
      var charged := CalculateFee(fee, out.value);
      var net := out.value - charged;
      if net < c.minOut { return Err(InsufficientOutput); }
      var moved := host.MakeTransfer(c.tokenOut, self, c.maker, net);
      if moved.Err? { return Err(moved.error); }
      if 0 < charged {
        moved := host.MakeTransfer(c.tokenOut, self, vault, charged);
        if moved.Err? { return Err(moved.error); }
      }
      res := Ok(net);
    }
  }

  lemma ClaimPaysNothing(w: SwapBook.World, id: nat)
    requires SwapBook.ClaimTimer(w, id).Ok?
    ensures var (w', c) := SwapBook.ClaimTimer(w, id).value;
            c.id == id && w'.book.Paid(id).net == w.book.Paid(id).net
  {
  }
}
