/** Router: split routes, atomic multi-hop paths, and settlement of SwapBook orders
    whose timer has fired. */
module Routing {
  import opened Results
  import opened MulDiv
  import opened Chain
  import opened Venues
  import SwapBook

  const MAX_PARTNER_FEE_PER_100K := 1_000
  const MAX_PATH_HOPS := 5
  const WEIGHT_DENOMINATOR: pos := 10_000
  const MAX_SURPLUS_SHARE_BPS := 5_000

  type Share = s: nat | s <= MAX_SURPLUS_SHARE_BPS

  datatype Router = Router(self: Address, vault: Address, fee: SwapBook.FeeRate, share: Share, venues: Registry)

  // ─── Fees ───────────────────────────────────────────

  function CalculateFee(rate: SwapBook.FeeRate, amount: int): nat {
    if amount <= 0 || rate == 0 then 0 else Ceil(amount, rate, SwapBook.FEE_DENOMINATOR)
  }

  /** The protocol's share of what execution beats the quote by, rounded down. */
  function SurplusFee(share: Share, out: int, estimate: int): Result<nat> {
    if estimate <= 0 || out <= estimate || share == 0 then Ok(0)
    else if (out - estimate) * share <= I128_MAX then Ok(Floor(out - estimate, share, SwapBook.BPS_DENOMINATOR))
    else Err(Overflow)
  }

  datatype Partner = Partner(account: Address, per100k: nat)

  function PartnerFee(partner: Option<Partner>, out: int): nat {
    if partner.Some? && 0 < partner.value.per100k && 0 <= out
    then Ceil(out, partner.value.per100k, SwapBook.FEE_DENOMINATOR) else 0
  }

  /** How an output is divided. */
  datatype Split = Split(user: int, vault: nat, partner: nat)

  function Divide(rt: Router, partner: Option<Partner>, out: int, estimate: int): Result<Split> {
    var fee := CalculateFee(rt.fee, out);
    var cut := PartnerFee(partner, out);
    var surplus :- SurplusFee(rt.share, out, estimate);
    :- Need(cut <= I128_MAX, InvalidAmount);
    Ok(Split(out - fee - cut - surplus, fee + surplus, cut))
  }

  /** Pay the user, then the vault and the partner what is theirs, if anything. */
  function PayOut(rt: Router, b: Balances, token: Address, user: Address, partner: Option<Partner>, s: Split)
    : Result<Balances>
  {
    var b1 :- Transfer(b, token, rt.self, user, s.user);
    var b2 :- if 0 < s.vault then Transfer(b1, token, rt.self, rt.vault, s.vault) else Ok(b1);
    if 0 < s.partner && partner.Some? then Transfer(b2, token, rt.self, partner.value.account, s.partner) else Ok(b2)
  }

  // ─── Routes ─────────────────────────────────────────

  /** What a successful call leaves: balances, the recipient's net, the output. */
  datatype Done = Done(bal: Balances, received: int, out: int)

  datatype Route = Route(
    user: Address, tokenIn: Address, tokenOut: Address, amountIn: int, minOut: int,
    segments: seq<Segment>, partner: Option<Partner>, estimate: int)

  function RouteInner(rt: Router, b: Balances, r: Route, outs: seq<int>): Result<Done> {
    var checked :- if 0 < r.amountIn && 0 < r.minOut then Ok(b) else Err(InvalidAmount);
    :- Need(r.tokenIn != r.tokenOut, SameToken);
    :- Need(r.estimate <= 0 || r.minOut <= r.estimate, InvalidEstimate);
    :- Validate(r.segments, r.amountIn);
    var pulled :- Transfer(checked, r.tokenIn, r.user, rt.self, r.amountIn);
    var f :- Execute(Flow(pulled, outs, 0), rt.self, rt.venues, r.tokenIn, r.tokenOut, r.segments);
    var s :- Divide(rt, r.partner, f.out, r.estimate);
    :- Need(r.minOut <= s.user, InsufficientOutput);
    var paid :- PayOut(rt, f.bal, r.tokenOut, r.user, r.partner, s);
    Ok(Done(paid, s.user, f.out))
  }

  function ExecuteRoute(rt: Router, b: Balances, r: Route, outs: seq<int>): Result<Done> {
    RouteInner(rt, b, r.(partner := None), outs)
  }

  function ExecuteRoutePartner(rt: Router, b: Balances, r: Route, account: Address, per100k: int, outs: seq<int>)
    : Result<Done>
  {
    if 0 <= per100k <= MAX_PARTNER_FEE_PER_100K
    then RouteInner(rt, b, r.(partner := Some(Partner(account, per100k))), outs)
    else Err(PartnerFeeAboveCap)
  }

  /** A swap through one venue, without an estimate. */
  datatype Single = Single(
    user: Address, tokenIn: Address, tokenOut: Address, amountIn: int, minOut: int, venueId: nat)

  function OneSegment(o: Single): Route {
    Route(o.user, o.tokenIn, o.tokenOut, o.amountIn, o.minOut, [Segment(o.venueId, o.amountIn, o.minOut)], None, 0)
  }

  function SwapOne(rt: Router, b: Balances, o: Single, outs: seq<int>): Result<Done> {
    ExecuteRoute(rt, b, OneSegment(o), outs)
  }

  // ─── Paths ──────────────────────────────────────────

  datatype Leg = Leg(venueId: nat, weightBps: int, minOut: int)
  datatype Hop = Hop(tokenOut: Address, legs: seq<Leg>)

  function Weights(legs: seq<Leg>): int {
    if legs == [] then 0 else legs[0].weightBps + Weights(legs[1..])
  }

  predicate ValidHop(from: Address, hop: Hop) {
    && hop.tokenOut != from && hop.legs != []
    && (forall leg <- hop.legs :: 0 < leg.weightBps && 0 <= leg.minOut)
    && Weights(hop.legs) == WEIGHT_DENOMINATOR
  }

  predicate ValidHops(from: Address, hops: seq<Hop>)
    decreases |hops|
  {
    hops == [] || (ValidHop(from, hops[0]) && ValidHops(hops[0].tokenOut, hops[1..]))
  }

  /** Split a carry over the legs still to run; the last takes what remains. */
  function ExecuteLegs(f: Flow, rt: Router, tokenIn: Address, tokenOut: Address, carry: int, legs: seq<Leg>,
                       remaining: int)
    : Result<Flow>
    decreases |legs|
  {
    if legs == [] then Ok(f)
    else
      var leg := legs[0];
      var legIn :- if |legs| == 1 then Ok(remaining)
                   else if 0 <= carry * leg.weightBps <= I128_MAX then Ok(carry * leg.weightBps / WEIGHT_DENOMINATOR)
                   else Err(Trap);
      :- Need(0 < legIn, InvalidAmount);
      var f' :- Swap(f, rt.self, rt.venues, leg.venueId, tokenIn, tokenOut, legIn, leg.minOut);
      ExecuteLegs(f', rt, tokenIn, tokenOut, carry, legs[1..], remaining - legIn)
  }

  /** Walk the hops, each swapping what the previous one actually delivered; the
      flow's output is the carry. */
  function ExecuteHops(f: Flow, rt: Router, token: Address, hops: seq<Hop>): Result<Flow>
    decreases |hops|
  {
    if hops == [] then Ok(f)
    else
      var hop := hops[0];
      var f' :- ExecuteLegs(f.(out := 0), rt, token, hop.tokenOut, f.out, hop.legs, f.out);
      ExecuteHops(f', rt, hop.tokenOut, hops[1..])
  }

  function EndToken(token: Address, hops: seq<Hop>): Address
    decreases |hops|
  {
    if hops == [] then token else EndToken(hops[0].tokenOut, hops[1..])
  }

  datatype Path = Path(user: Address, tokenIn: Address, amountIn: int, minOut: int, hops: seq<Hop>, estimate: int)

  function ExecutePath(rt: Router, b: Balances, p: Path, outs: seq<int>): Result<Done> {
    var checked :- if 0 < p.amountIn && 0 < p.minOut then Ok(b) else Err(InvalidAmount);
    :- Need(p.estimate <= 0 || p.minOut <= p.estimate, InvalidEstimate);
    :- Need(p.hops != [], InvalidPath);
    :- Need(|p.hops| <= MAX_PATH_HOPS, PathTooLong);
    :- Need(ValidHops(p.tokenIn, p.hops), InvalidPath);
    var pulled :- Transfer(checked, p.tokenIn, p.user, rt.self, p.amountIn);
    var f :- ExecuteHops(Flow(pulled, outs, p.amountIn), rt, p.tokenIn, p.hops);
    var s :- Divide(rt, None, f.out, p.estimate);
    :- Need(p.minOut <= s.user, InsufficientOutput);
    var paid :- PayOut(rt, f.bal, EndToken(p.tokenIn, p.hops), p.user, None, s);
    Ok(Done(paid, s.user, f.out))
  }

  // ─── Timer settlement ───────────────────────────────

  /** Swap a claimed escrow and pay its maker. The payment is added to the order's
      history. */
  function SettleClaim(rt: Router, w: SwapBook.World, c: SwapBook.Claim, segments: seq<Segment>, outs: seq<int>)
    : Result<SwapBook.World>
  {
    var start :- if Validate(segments, c.amount).Pass? then Ok(Flow(w.bal, outs, 0))
                 else Err(Validate(segments, c.amount).error);
    var f :- Execute(start, rt.self, rt.venues, c.tokenIn, c.tokenOut, segments);
    var fee := CalculateFee(rt.fee, f.out);
    var net := f.out - fee;
    :- Need(c.minOut <= net, InsufficientOutput);
    var paid :- PayWithFee(f.bal, c.tokenOut, rt.self, c.maker, rt.vault, net, fee);
    Ok(w.(bal := paid, book := Credited(w.book, c.id, net)))
  }

  function Credited(book: SwapBook.Book, id: nat, net: int): SwapBook.Book {
    book.(receipts := book.receipts[id := SwapBook.Receipt(book.Paid(id).net + net, book.Paid(id).refunded)])
  }

  /** Claim a timer-expired order and settle it, in one call. */
  function RouteExpired(rt: Router, w: SwapBook.World, id: nat, segments: seq<Segment>, outs: seq<int>)
    : Result<SwapBook.World>
  {
    var (w1, c) :- if rt.self == w.book.router then SwapBook.ClaimTimer(w, id) else Err(Trap);
    SettleClaim(rt, w1, c, segments, outs)
  }
}
