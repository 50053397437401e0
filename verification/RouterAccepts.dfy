/** Exactly when the Router accepts a path, and settles a timed-out order. */
module RouterAccepts {
  import opened Results
  import opened MulDiv
  import opened Chain
  import opened Venues
  import opened Routing
  import opened RouterCalls
  import opened RouterLegs
  import SwapBook
  import BookInvariant
  import BookCalls
  import BookEntry

  // ─── Paths ──────────────────────────────────────────

  /** From leg j on: each leg gets something, its venue is registered and answers at or
      above its minimum, and the product behind its share fits. */
  predicate LegsDelivered(rt: Router, carry: int, legs: seq<Leg>, j: nat, outs: seq<int>)
    requires j <= |legs|
    decreases |legs| - j
  {
    j == |legs|
    || (&& 0 < LegShare(carry, legs, j)
        && (j + 1 < |legs| ==> 0 <= carry * legs[j].weightBps <= I128_MAX)
        && legs[j].venueId in rt.venues && outs != [] && legs[j].minOut <= outs[0]
        && LegsDelivered(rt, carry, legs, j + 1, outs[1..]))
  }

  /** So hop by hop, each carrying what the hop before delivered. */
  predicate PathDelivered(rt: Router, hops: seq<Hop>, carry: int, outs: seq<int>)
    decreases |hops|
  {
    hops == []
    || (var n := |hops[0].legs|;
        LegsDelivered(rt, carry, hops[0].legs, 0, outs) && n <= |outs|
        && PathDelivered(rt, hops[1..], Sum(outs[..n]), outs[n..]))
  }

  /** What a path's last hop delivers. */
  function PathOut(hops: seq<Hop>, carry: int, outs: seq<int>): int
    decreases |hops|
  {
    if hops == [] || |outs| < |hops[0].legs| then carry
    else PathOut(hops[1..], Sum(outs[..|hops[0].legs|]), outs[|hops[0].legs|..])
  }

  lemma {:induction false} SharesLeft(rt: Router, carry: int, legs: seq<Leg>, j: nat, outs: seq<int>)
    requires j < |legs| && LegsDelivered(rt, carry, legs, j, outs)
    ensures LegShare(carry, legs, j) <= carry - Portions(carry, legs[..j])
    decreases |legs| - j
  {
    hide Portions;
    if j + 1 < |legs| {
      SharesLeft(rt, carry, legs, j + 1, outs[1..]);
      PortionsAppend(carry, legs, j);
    }
  }

  lemma {:induction false} LegsRunIff(f: Flow, rt: Router, tokenIn: Address, tokenOut: Address, carry: int,
                                      legs: seq<Leg>, j: nat)
    requires j < |legs| && rt.self !in rt.venues.Values && tokenIn != tokenOut
    requires carry - Portions(carry, legs[..j]) <= Bal(f.bal, tokenIn, rt.self)
    ensures ExecuteLegs(f, rt, tokenIn, tokenOut, carry, legs[j..], carry - Portions(carry, legs[..j])).Ok?
            <==> LegsDelivered(rt, carry, legs, j, f.outs)
    decreases |legs| - j
  {
    hide Swap, Bal, Portions;
    var leg, share, left := legs[j], LegShare(carry, legs, j), carry - Portions(carry, legs[..j]);
    assert legs[j..][0] == leg && legs[j..][1..] == legs[j + 1..];
    PortionsAppend(carry, legs, j);
    if LegsDelivered(rt, carry, legs, j, f.outs) {
      SharesLeft(rt, carry, legs, j, f.outs);
    }
    OneLegIff(f, rt, leg, tokenIn, tokenOut, share);
    var step := Swap(f, rt.self, rt.venues, leg.venueId, tokenIn, tokenOut, share, leg.minOut);
    if step.Ok? {
      SwapPaysVenue(f, rt.self, rt.venues, leg.venueId, tokenIn, tokenOut, share, leg.minOut, tokenIn, rt.self);
      if j + 1 < |legs| {
        LegsRunIff(step.value, rt, tokenIn, tokenOut, carry, legs, j + 1);
      }
    }
  }

  lemma OneLegIff(f: Flow, rt: Router, leg: Leg, tokenIn: Address, tokenOut: Address, share: int)
    ensures Swap(f, rt.self, rt.venues, leg.venueId, tokenIn, tokenOut, share, leg.minOut).Ok?
            <==> && leg.venueId in rt.venues && 0 <= share <= Bal(f.bal, tokenIn, rt.self)
                 && f.outs != [] && leg.minOut <= f.outs[0]
  {
    hide Bal;
  }

  lemma HopRunsIff(f: Flow, rt: Router, token: Address, hop: Hop, carry: int)
    requires hop.legs != [] && hop.tokenOut != token && rt.self !in rt.venues.Values
    requires carry <= Bal(f.bal, token, rt.self)
    ensures ExecuteLegs(f, rt, token, hop.tokenOut, carry, hop.legs, carry).Ok?
            <==> LegsDelivered(rt, carry, hop.legs, 0, f.outs)
  {
    assert hop.legs[0..] == hop.legs && hop.legs[..0] == [] && Portions(carry, []) == 0;
    LegsRunIff(f, rt, token, hop.tokenOut, carry, hop.legs, 0);
  }

  ghost predicate HoldsNothingShort(b: Balances, self: Address) {
    forall t :: 0 <= Bal(b, t, self)
  }

  lemma {:induction false} HopsRunIff(f: Flow, rt: Router, token: Address, hops: seq<Hop>)
    requires ValidHops(token, hops) && rt.self !in rt.venues.Values
    requires HoldsNothingShort(f.bal, rt.self) && 0 <= f.out <= Bal(f.bal, token, rt.self)
    ensures ExecuteHops(f, rt, token, hops).Ok? <==> PathDelivered(rt, hops, f.out, f.outs)
    ensures ExecuteHops(f, rt, token, hops).Ok? ==>
              var f' := ExecuteHops(f, rt, token, hops).value;
              && f'.out == PathOut(hops, f.out, f.outs) && 0 <= f'.out <= Bal(f'.bal, EndToken(token, hops), rt.self)
    decreases |hops|
  {
    hide ExecuteLegs, Bal, LegsDelivered;
    if hops != [] {
      var hop, start := hops[0], f.(out := 0);
      HopRunsIff(start, rt, token, hop, f.out);
      var step := ExecuteLegs(start, rt, token, hop.tokenOut, f.out, hop.legs, f.out);
      if step.Ok? {
        AfterHop(f, rt, token, hop);
        LegsPayVenues(start, rt, token, hop.tokenOut, f.out, hop.legs, token, rt.self);
        hide ValidHop;
        HopsRunIff(step.value, rt, hop.tokenOut, hops[1..]);
      }
    }
  }

  lemma AfterHop(f: Flow, rt: Router, token: Address, hop: Hop)
    requires ValidHop(token, hop) && rt.self !in rt.venues.Values
    requires HoldsNothingShort(f.bal, rt.self) && 0 <= f.out <= Bal(f.bal, token, rt.self)
    requires ExecuteLegs(f.(out := 0), rt, token, hop.tokenOut, f.out, hop.legs, f.out).Ok?
    ensures var f' := ExecuteLegs(f.(out := 0), rt, token, hop.tokenOut, f.out, hop.legs, f.out).value;
            HoldsNothingShort(f'.bal, rt.self) && 0 <= f'.out <= Bal(f'.bal, hop.tokenOut, rt.self)
  {
    hide ExecuteLegs, Bal;
    LegsMove(f.(out := 0), rt, token, hop.tokenOut, f.out, hop.legs, f.out);
  }

  /** A path is accepted exactly when its request is well formed, the user holds the input,
      the venues deliver hop by hop, and the user's part of the last hop meets the floor. */
  lemma PathAcceptedIff(rt: Router, b: Balances, p: Path, outs: seq<int>)
    requires p.user != rt.self && rt.self !in rt.venues.Values && HoldsNothingShort(b, rt.self)
    ensures ExecutePath(rt, b, p, outs).Ok? <==>
            && 0 < p.amountIn <= Bal(b, p.tokenIn, p.user)
            && 0 < p.minOut && (0 < p.estimate ==> p.minOut <= p.estimate)
            && 1 <= |p.hops| <= 5 && (forall i: nat :: i < |p.hops| ==> HopOk(p.tokenIn, p.hops, i))
            && PathDelivered(rt, p.hops, p.amountIn, outs)
            && UserGets(rt, None, PathOut(p.hops, p.amountIn, outs), p.estimate, p.minOut)
  {
    hide Bal, Transfer, ExecuteHops, Divide, PayOut, PathDelivered, PathOut, ValidHops, HopOk, EndToken;
    ValidHopsIff(p.tokenIn, p.hops);
    TransferNeeds(b, p.tokenIn, p.user, rt.self, p.amountIn);
    if 0 < p.amountIn <= Bal(b, p.tokenIn, p.user) && ValidHops(p.tokenIn, p.hops) {
      TransferRuns(b, p.tokenIn, p.user, rt.self, p.amountIn);
      TransferMoves(b, p.tokenIn, p.user, rt.self, p.amountIn);
      var start := Flow(Transfer(b, p.tokenIn, p.user, rt.self, p.amountIn).value, outs, p.amountIn);
      HopsRunIff(start, rt, p.tokenIn, p.hops);
      var run := ExecuteHops(start, rt, p.tokenIn, p.hops);
      if run.Ok? && UserGets(rt, None, run.value.out, p.estimate, 0) {
        DivideExact(rt, None, run.value.out, p.estimate);
        PayOutSucceeds(rt, run.value.bal, EndToken(p.tokenIn, p.hops), p.user, None,
                       Divide(rt, None, run.value.out, p.estimate).value);
      }
    }
  }

  // ─── Timer settlement ───────────────────────────────

  /** A timed-out order is routed exactly when the claim is open, the segments sum to what is
      left of it, every venue delivers, and the maker's net meets the order's own price. */
  lemma RouteExpiredAcceptedIff(rt: Router, w: SwapBook.World, id: nat, segments: seq<Segment>, outs: seq<int>)
    requires BookInvariant.Inv(w.book) && id in w.book.orders && rt.self == w.book.router
    requires var o := w.book.orders[id];
             && 0 <= BookInvariant.Surplus(w, o.tokenIn) && rt.self != o.maker && rt.self != rt.vault
             && 0 <= Bal(w.bal, o.tokenIn, rt.self) && 0 <= Bal(w.bal, o.tokenOut, rt.self)
    requires rt.self !in rt.venues.Values && w.book.self != rt.self
    ensures RouteExpired(rt, w, id, segments, outs).Ok? <==>
            var o := w.book.orders[id];
            && o.Live() && 0 < o.autoRouteAfter < w.env.now <= o.expiry
            && segments != [] && (forall s <- segments :: 0 < s.amountIn && 0 <= s.minOut)
            && Total(segments) == o.remaining && Delivered(rt.venues, segments, outs)
            && BookCalls.NetCoversFloor(o, w.env, o.remaining, SettledNet(rt, segments, outs))
  {
    hide BookInvariant.Inv, BookInvariant.Surplus, SwapBook.ClaimTimer, SettleClaim, Bal, Delivered,
         BookCalls.NetCoversFloor, SettledNet;
    BookEntry.ClaimAcceptedIff(w, id);
    BookCalls.EscrowHeld(w, id);
    var claim := SwapBook.ClaimTimer(w, id);
    if claim.Ok? {
      BookCalls.ClaimEffects(w, id);
      var (w1, c) := claim.value;
      ClaimHeld(w, id, w1);
      SettleIff(rt, w1, c, segments, outs);
    }
  }

  lemma ClaimHeld(w: SwapBook.World, id: nat, w': SwapBook.World)
    requires id in w.book.orders && BookCalls.MovesEscrow(w, w', id, w.book.router) && w.book.self != w.book.router
    requires var o := w.book.orders[id];
             0 <= Bal(w.bal, o.tokenIn, w.book.router) && 0 <= Bal(w.bal, o.tokenOut, w.book.router)
    ensures var o := w.book.orders[id];
            && o.remaining <= Bal(w'.bal, o.tokenIn, w.book.router) && 0 <= Bal(w'.bal, o.tokenOut, w.book.router)
  {
    hide Bal;
  }

  lemma SettleIff(rt: Router, w: SwapBook.World, c: SwapBook.Claim, segments: seq<Segment>, outs: seq<int>)
    requires rt.self !in rt.venues.Values && rt.self != c.maker && rt.self != rt.vault && c.tokenIn != c.tokenOut
    requires c.amount <= Bal(w.bal, c.tokenIn, rt.self) && 0 <= Bal(w.bal, c.tokenOut, rt.self)
    ensures SettleClaim(rt, w, c, segments, outs).Ok? <==>
            && segments != [] && (forall s <- segments :: 0 < s.amountIn && 0 <= s.minOut)
            && Total(segments) == c.amount && Delivered(rt.venues, segments, outs)
            && c.minOut <= SettledNet(rt, segments, outs)
  {
    hide Bal, Execute, Delivered, PayWithFee, CalculateFee, Sum;
    if WellFormed(segments) && Total(segments) == c.amount {
      var start := Flow(w.bal, outs, 0);
      ExecuteRunsIff(start, rt.self, rt.venues, c.tokenIn, c.tokenOut, segments);
      var run := Execute(start, rt.self, rt.venues, c.tokenIn, c.tokenOut, segments);
      if run.Ok? {
        ExecuteMoves(start, rt.self, rt.venues, c.tokenIn, c.tokenOut, segments);
        FeeWithin(rt.fee, run.value.out);
        PayWithFeeSucceeds(run.value.bal, c.tokenOut, rt.self, c.maker, rt.vault,
                           run.value.out - CalculateFee(rt.fee, run.value.out), CalculateFee(rt.fee, run.value.out));
      }
    }
  }

  lemma FeeWithin(rate: SwapBook.FeeRate, out: nat)
    ensures 0 <= CalculateFee(rate, out) <= out
  {
    CeilGalois(out, rate, SwapBook.FEE_DENOMINATOR, out);
    hide Ceil;
    assert out * rate <= out * SwapBook.FEE_DENOMINATOR;
  }
}
