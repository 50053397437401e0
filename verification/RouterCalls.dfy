/** The Router keeps nothing: every successful call passes the whole input to the
    venues and the whole output on, and the recipient is at or above its floor. */
module RouterCalls {
  import opened Results
  import opened MulDiv
  import opened Chain
  import opened Venues
  import opened Routing
  import SwapBook
  import BookInvariant
  import BookCalls

  // ─── Dividing the output ────────────────────────────

  /** The user, the vault and the partner share the output without remainder. */
  lemma DivideExact(rt: Router, partner: Option<Partner>, out: int, estimate: int)
    requires Divide(rt, partner, out, estimate).Ok?
    ensures var s := Divide(rt, partner, out, estimate).value;
            s.user + s.vault + s.partner == out
  {
  }

  /** Sharing a surplus never cuts into the quote: without a partner fee, whenever
      the venues beat a positive estimate the user gets at least the estimate less
      the fee on the estimate, though the fee is charged on the larger output. */
  lemma SurplusKeepsQuote(rt: Router, out: int, estimate: int)
    requires 0 < estimate < out && Divide(rt, None, out, estimate).Ok?
    ensures estimate - CalculateFee(rt.fee, estimate) <= Divide(rt, None, out, estimate).value.user
  {
    var more: nat := out - estimate;
    var surplus := if rt.share == 0 then 0 else Floor(more, rt.share, SwapBook.BPS_DENOMINATOR);
    SurplusAtMostHalf(more, rt.share);
    FeeGrowsSlowly(rt.fee, estimate, more);
  }

  lemma SurplusAtMostHalf(more: nat, share: Share)
    ensures 2 * Floor(more, share, SwapBook.BPS_DENOMINATOR) <= more
  {
    FloorBounds(more, share, SwapBook.BPS_DENOMINATOR);
    assert more * share <= more * MAX_SURPLUS_SHARE_BPS;
  }

  /** Charging the fee on `more` extra output costs at most half of it, rounded up. */
  lemma FeeGrowsSlowly(rate: SwapBook.FeeRate, amount: pos, more: pos)
    ensures CalculateFee(rate, amount + more) <= CalculateFee(rate, amount) + (more + 1) / 2
  {
    if rate != 0 {
      var d := SwapBook.FEE_DENOMINATOR;
      var fee := Ceil(amount, rate, d);
      CeilBounds(amount, rate, d);
      assert (amount + more) * rate == amount * rate + more * rate;
      assert more * rate <= more * 5;
      assert (fee + (more + 1) / 2) * d == fee * d + (more + 1) / 2 * d;
      CeilGalois(amount + more, rate, d, fee + (more + 1) / 2);
    }
  }

  /** How many of the deductions step up on the next unit of output: the flat fee, the
      partner's cut, and the share of a surplus. */
  function StepsUp(rt: Router, partner: Option<Partner>, out: nat, estimate: int): nat {
    (if CeilRises(out, rt.fee, SwapBook.FEE_DENOMINATOR) then 1 else 0)
    + (if partner.Some? && CeilRises(out, partner.value.per100k, SwapBook.FEE_DENOMINATOR) then 1 else 0)
    + (if 0 < estimate <= out && FloorRises(out - estimate, rt.share, SwapBook.BPS_DENOMINATOR) then 1 else 0)
  }

  /** One more unit of output is the user's, less one for each deduction it steps up. */
  lemma ReceiptStep(rt: Router, partner: Option<Partner>, out: nat, estimate: int)
    requires partner.Some? ==> partner.value.per100k <= MAX_PARTNER_FEE_PER_100K
    requires Divide(rt, partner, out, estimate).Ok? && Divide(rt, partner, out + 1, estimate).Ok?
    ensures Divide(rt, partner, out + 1, estimate).value.user
            == Divide(rt, partner, out, estimate).value.user + 1 - StepsUp(rt, partner, out, estimate)
  {
    FeeStep(rt.fee, out);
    CutStep(partner, out);
    SurplusStep(rt.share, out, estimate);
    hide CalculateFee, PartnerFee, SurplusFee, CeilRises, FloorRises;
  }

  lemma FeeStep(rate: SwapBook.FeeRate, out: nat)
    ensures CalculateFee(rate, out + 1)
            == CalculateFee(rate, out) + if CeilRises(out, rate, SwapBook.FEE_DENOMINATOR) then 1 else 0
  {
    CeilStep(out, rate, SwapBook.FEE_DENOMINATOR);
    CeilOfNothing(out, rate, SwapBook.FEE_DENOMINATOR);
    CeilOfNothing(out + 1, rate, SwapBook.FEE_DENOMINATOR);
    hide Ceil, CeilRises;
  }

  lemma CutStep(partner: Option<Partner>, out: nat)
    requires partner.Some? ==> partner.value.per100k <= MAX_PARTNER_FEE_PER_100K
    ensures PartnerFee(partner, out + 1)
            == PartnerFee(partner, out)
               + if partner.Some? && CeilRises(out, partner.value.per100k, SwapBook.FEE_DENOMINATOR) then 1 else 0
  {
    if partner.Some? {
      var rate := partner.value.per100k;
      CeilStep(out, rate, SwapBook.FEE_DENOMINATOR);
      CeilOfNothing(out, rate, SwapBook.FEE_DENOMINATOR);
      CeilOfNothing(out + 1, rate, SwapBook.FEE_DENOMINATOR);
      hide Ceil, CeilRises;
    }
  }

  lemma SurplusStep(share: Share, out: nat, estimate: int)
    requires SurplusFee(share, out, estimate).Ok? && SurplusFee(share, out + 1, estimate).Ok?
    ensures SurplusFee(share, out + 1, estimate).value
            == SurplusFee(share, out, estimate).value
               + if 0 < estimate <= out && FloorRises(out - estimate, share, SwapBook.BPS_DENOMINATOR) then 1 else 0
  {
    if 0 < estimate <= out {
      FloorStep(out - estimate, share, SwapBook.BPS_DENOMINATOR);
    }
  }

  lemma CeilOfNothing(a: nat, b: nat, d: pos)
    ensures a == 0 || b == 0 ==> Ceil(a, b, d) == 0
  {
    CeilGalois(a, b, d, 0);
    if a == 0 || b == 0 {
      assert a * b == 0;
    }
  }

  /** The user's receipt is not monotone in the output. It falls on the next unit if and
      only if two deductions step up on it, each a remainder test on the output at hand. */
  lemma ReceiptDropsIff(rt: Router, partner: Option<Partner>, out: nat, estimate: int)
    requires partner.Some? ==> partner.value.per100k <= MAX_PARTNER_FEE_PER_100K
    requires Divide(rt, partner, out, estimate).Ok? && Divide(rt, partner, out + 1, estimate).Ok?
    ensures Divide(rt, partner, out + 1, estimate).value.user < Divide(rt, partner, out, estimate).value.user
            <==> 2 <= StepsUp(rt, partner, out, estimate)
  {
    ReceiptStep(rt, partner, out, estimate);
  }

  /** Without a partner both the fee and the surplus share must step up, so there must be
      both, and the output must already have reached a positive estimate. */
  lemma PlainReceiptDropsIff(rt: Router, out: nat, estimate: int)
    requires Divide(rt, None, out, estimate).Ok? && Divide(rt, None, out + 1, estimate).Ok?
    ensures Divide(rt, None, out + 1, estimate).value.user < Divide(rt, None, out, estimate).value.user
            <==> && rt.fee != 0 && rt.share != 0 && 0 < estimate <= out
                 && 100_000 <= (out * rt.fee + 99_999) % 100_000 + rt.fee
                 && 10_000 <= (out - estimate) * rt.share % 10_000 + rt.share
  {
    ReceiptDropsIff(rt, None, out, estimate);
  }

  /** A unit on which both do step up. */
  lemma ReceiptCanDrop(rt: Router)
    requires rt.fee == 5 && rt.share == MAX_SURPLUS_SHARE_BPS
    ensures Divide(rt, None, 20_000, 19_999) == Ok(Split(19_999, 1, 0))
    ensures Divide(rt, None, 20_001, 19_999) == Ok(Split(19_998, 3, 0))
  {
    assert CalculateFee(5, 20_000) == 1 && CalculateFee(5, 20_001) == 2;
  }

  /** A unit on which the partner's cut steps up with the fee, with no surplus at all. */
  lemma PartnerReceiptCanDrop(rt: Router, account: Address)
    requires rt.fee == 5
    ensures Divide(rt, Some(Partner(account, 5)), 20_000, 0) == Ok(Split(19_998, 1, 1))
    ensures Divide(rt, Some(Partner(account, 5)), 20_001, 0) == Ok(Split(19_997, 2, 2))
  {
    assert CalculateFee(5, 20_000) == 1 && CalculateFee(5, 20_001) == 2;
  }

  lemma PayOutMoves(rt: Router, b: Balances, token: Address, user: Address, partner: Option<Partner>, s: Split)
    requires PayOut(rt, b, token, user, partner, s).Ok? && (partner.None? ==> s.partner == 0)
    ensures forall t, a ::
              Bal(PayOut(rt, b, token, user, partner, s).value, t, a)
              == Bal(b, t, a) - At(token, rt.self, t, a, s.user + s.vault + s.partner)
                 + At(token, user, t, a, s.user) + At(token, rt.vault, t, a, s.vault)
                 + (if partner.Some? then At(token, partner.value.account, t, a, s.partner) else 0)
  {
  }

  // ─── Routes ─────────────────────────────────────────

  /** Where a call's payments go, as a change of one holding. The Router itself does
      not appear. */
  function RouteMoves(rt: Router, r: Route, s: Split, t: Address, a: Address): int {
    At(r.tokenOut, r.user, t, a, s.user) + At(r.tokenOut, rt.vault, t, a, s.vault)
    + (if r.partner.Some? then At(r.tokenOut, r.partner.value.account, t, a, s.partner) else 0)
    - At(r.tokenIn, r.user, t, a, r.amountIn)
  }

  /** A successful route takes exactly the stated input from the user, pays the user
      at or above the floor, shares exactly what the venues returned, and leaves the
      Router's every balance, and everyone else's but the venues', as it was. */
  lemma RouteKeepsNothing(rt: Router, b: Balances, r: Route, outs: seq<int>, t: Address, a: Address)
    requires RouteInner(rt, b, r, outs).Ok? && a !in rt.venues.Values
    ensures var d := RouteInner(rt, b, r, outs).value;
            && |r.segments| <= |outs| && d.out == Sum(outs[..|r.segments|])
            && Divide(rt, r.partner, d.out, r.estimate).Ok?
            && var s := Divide(rt, r.partner, d.out, r.estimate).value;
            && s.user == d.received && r.minOut <= d.received
            && s.user + s.vault + s.partner == d.out
            && Bal(d.bal, t, a) == Bal(b, t, a) + RouteMoves(rt, r, s, t, a)
  {
    var pulled := Transfer(b, r.tokenIn, r.user, rt.self, r.amountIn).value;
    TransferMoves(b, r.tokenIn, r.user, rt.self, r.amountIn);
    ExecuteMoves(Flow(pulled, outs, 0), rt.self, rt.venues, r.tokenIn, r.tokenOut, r.segments);
    var f := Execute(Flow(pulled, outs, 0), rt.self, rt.venues, r.tokenIn, r.tokenOut, r.segments).value;
    DivideExact(rt, r.partner, f.out, r.estimate);
    PayOutMoves(rt, f.bal, r.tokenOut, r.user, r.partner, Divide(rt, r.partner, f.out, r.estimate).value);
    hide Transfer, Execute, Divide, PayOut, Bal;
  }

  /** execute_route has no partner: the output is the user's and the vault's, and beating
      a positive estimate leaves the user at least the estimate less its fee. */
  lemma PlainRouteKeepsNothing(rt: Router, b: Balances, r: Route, outs: seq<int>, t: Address, a: Address)
    requires ExecuteRoute(rt, b, r, outs).Ok? && a !in rt.venues.Values
    ensures var d := ExecuteRoute(rt, b, r, outs).value;
            && r.minOut <= d.received <= d.out
            && (0 < r.estimate < d.out ==> r.estimate - CalculateFee(rt.fee, r.estimate) <= d.received)
            && Bal(d.bal, t, a)
               == Bal(b, t, a) - At(r.tokenIn, r.user, t, a, r.amountIn)
                  + At(r.tokenOut, r.user, t, a, d.received) + At(r.tokenOut, rt.vault, t, a, d.out - d.received)
  {
    var plain := r.(partner := None);
    RouteKeepsNothing(rt, b, plain, outs, t, a);
    var d := ExecuteRoute(rt, b, r, outs).value;
    if 0 < r.estimate < d.out {
      SurplusKeepsQuote(rt, d.out, r.estimate);
    }
    hide RouteInner, Bal, CalculateFee;
  }

  /** execute_route_partner refuses a rate above the cap; within it the partner is paid
      its rate of the output, rounded up, out of the user's side alone: the vault gets
      what it would get without a partner. */
  lemma PartnerRouteKeepsNothing(rt: Router, b: Balances, r: Route, account: Address, per100k: int, outs: seq<int>,
                                 t: Address, a: Address)
    requires ExecuteRoutePartner(rt, b, r, account, per100k, outs).Ok? && a !in rt.venues.Values
    ensures 0 <= per100k <= MAX_PARTNER_FEE_PER_100K
    ensures var d := ExecuteRoutePartner(rt, b, r, account, per100k, outs).value;
            && 0 <= d.out && Divide(rt, None, d.out, r.estimate).Ok?
            && var cut := Ceil(d.out, per100k, SwapBook.FEE_DENOMINATOR);
            var vault := Divide(rt, None, d.out, r.estimate).value.vault;
            && r.minOut <= d.received == d.out - cut - vault
            && Bal(d.bal, t, a)
               == Bal(b, t, a) - At(r.tokenIn, r.user, t, a, r.amountIn) + At(r.tokenOut, r.user, t, a, d.received)
                  + At(r.tokenOut, rt.vault, t, a, vault) + At(r.tokenOut, account, t, a, cut)
  {
    var shared := r.(partner := Some(Partner(account, per100k)));
    RouteKeepsNothing(rt, b, shared, outs, t, a);
    RouteOutputs(rt, b, shared, outs);
    CeilOfNothing(RouteInner(rt, b, shared, outs).value.out, per100k, SwapBook.FEE_DENOMINATOR);
    hide RouteInner, Bal, CalculateFee, SurplusFee, Ceil;
  }

  lemma RouteOutputs(rt: Router, b: Balances, r: Route, outs: seq<int>)
    requires RouteInner(rt, b, r, outs).Ok?
    ensures 0 <= RouteInner(rt, b, r, outs).value.out
  {
    var pulled := Transfer(b, r.tokenIn, r.user, rt.self, r.amountIn).value;
    ExecuteMoves(Flow(pulled, outs, 0), rt.self, rt.venues, r.tokenIn, r.tokenOut, r.segments);
    hide Transfer, Execute, Divide, PayOut;
  }

  /** swap pushes the whole input through one venue and shares what it returns by the flat
      fee alone: no surplus is taken without an estimate. */
  lemma SwapOneKeepsNothing(rt: Router, b: Balances, o: Single, outs: seq<int>, t: Address, a: Address)
    requires SwapOne(rt, b, o, outs).Ok? && a !in rt.venues.Values
    ensures outs != []
    ensures var d := SwapOne(rt, b, o, outs).value;
            var fee := CalculateFee(rt.fee, outs[0]);
            && d.out == outs[0] && o.minOut <= d.received == outs[0] - fee
            && Bal(d.bal, t, a)
               == Bal(b, t, a) - At(o.tokenIn, o.user, t, a, o.amountIn)
                  + At(o.tokenOut, o.user, t, a, outs[0] - fee) + At(o.tokenOut, rt.vault, t, a, fee)
  {
    RouteKeepsNothing(rt, b, OneSegment(o), outs, t, a);
    assert outs[..1] == [outs[0]] && outs[..1][1..] == [];
    hide RouteInner, Bal, CalculateFee;
  }

  // ─── Paths ──────────────────────────────────────────

  /** The legs of a hop swap exactly what they are given, whatever the weights. */
  lemma {:induction false} LegsMove(f: Flow, rt: Router, tokenIn: Address, tokenOut: Address, carry: int,
                                    legs: seq<Leg>, remaining: int)
    requires legs != [] && ExecuteLegs(f, rt, tokenIn, tokenOut, carry, legs, remaining).Ok?
    requires forall leg <- legs :: 0 <= leg.minOut
    ensures var f' := ExecuteLegs(f, rt, tokenIn, tokenOut, carry, legs, remaining).value;
            && f.out <= f'.out
            && (forall t, a :: a !in rt.venues.Values ==>
                  Bal(f'.bal, t, a) == Bal(f.bal, t, a) - At(tokenIn, rt.self, t, a, remaining)
                                       + At(tokenOut, rt.self, t, a, f'.out - f.out))
    decreases |legs|
  {
    hide Swap, Bal;
    var leg := legs[0];
    assert leg in legs && forall x <- legs[1..] :: x in legs;
    var legIn := if |legs| == 1 then remaining else carry * leg.weightBps / WEIGHT_DENOMINATOR;
    SwapMoves(f, rt.self, rt.venues, leg.venueId, tokenIn, tokenOut, legIn, leg.minOut);
    if |legs| > 1 {
      var f1 := Swap(f, rt.self, rt.venues, leg.venueId, tokenIn, tokenOut, legIn, leg.minOut).value;
      LegsMove(f1, rt, tokenIn, tokenOut, carry, legs[1..], remaining - legIn);
    }
  }

  /** Hop by hop the whole carry is swapped, also on paths that revisit a token. */
  lemma {:induction false} HopsMove(f: Flow, rt: Router, token: Address, hops: seq<Hop>, t: Address, a: Address)
    requires ValidHops(token, hops) && 0 <= f.out && ExecuteHops(f, rt, token, hops).Ok?
    requires a !in rt.venues.Values
    ensures var f' := ExecuteHops(f, rt, token, hops).value;
            && 0 <= f'.out
            && Bal(f'.bal, t, a) == Bal(f.bal, t, a) - At(token, rt.self, t, a, f.out)
                                    + At(EndToken(token, hops), rt.self, t, a, f'.out)
    decreases |hops|
  {
    hide ExecuteLegs, Bal;
    if hops != [] {
      var hop := hops[0];
      LegsMove(f.(out := 0), rt, token, hop.tokenOut, f.out, hop.legs, f.out);
      var f1 := ExecuteLegs(f.(out := 0), rt, token, hop.tokenOut, f.out, hop.legs, f.out).value;
      HopsMove(f1, rt, hop.tokenOut, hops[1..], t, a);
    }
  }

  /** The same guarantee for an atomic path of up to five hops. */
  lemma PathKeepsNothing(rt: Router, b: Balances, p: Path, outs: seq<int>, t: Address, a: Address)
    requires ExecutePath(rt, b, p, outs).Ok? && a !in rt.venues.Values
    ensures var d := ExecutePath(rt, b, p, outs).value;
            var end := EndToken(p.tokenIn, p.hops);
            && Divide(rt, None, d.out, p.estimate).Ok?
            && var s := Divide(rt, None, d.out, p.estimate).value;
            && s.user == d.received && p.minOut <= d.received && s.user + s.vault == d.out
            && (0 < p.estimate < d.out ==> p.estimate - CalculateFee(rt.fee, p.estimate) <= d.received)
            && Bal(d.bal, t, a)
               == Bal(b, t, a) - At(p.tokenIn, p.user, t, a, p.amountIn)
                  + At(end, p.user, t, a, s.user) + At(end, rt.vault, t, a, s.vault)
  {
    var pulled := Transfer(b, p.tokenIn, p.user, rt.self, p.amountIn).value;
    TransferMoves(b, p.tokenIn, p.user, rt.self, p.amountIn);
    HopsMove(Flow(pulled, outs, p.amountIn), rt, p.tokenIn, p.hops, t, a);
    var f := ExecuteHops(Flow(pulled, outs, p.amountIn), rt, p.tokenIn, p.hops).value;
    DivideExact(rt, None, f.out, p.estimate);
    PayOutMoves(rt, f.bal, EndToken(p.tokenIn, p.hops), p.user, None, Divide(rt, None, f.out, p.estimate).value);
    if 0 < p.estimate < f.out {
      SurplusKeepsQuote(rt, f.out, p.estimate);
    }
    hide Transfer, ExecuteHops, ValidHops, Divide, PayOut, Bal, CalculateFee;
  }

  // ─── Timer settlement ───────────────────────────────

  /** The maker's net and the fee of a settlement, from what the venues returned. */
  function SettledFee(rt: Router, segments: seq<Segment>, outs: seq<int>): nat
    requires |segments| <= |outs|
  {
    CalculateFee(rt.fee, Sum(outs[..|segments|]))
  }

  function SettledNet(rt: Router, segments: seq<Segment>, outs: seq<int>): int
    requires |segments| <= |outs|
  {
    Sum(outs[..|segments|]) - SettledFee(rt, segments, outs)
  }

  /** A settlement nets the maker at or above its floor, and changes nothing of the
      book but the history. */
  lemma SettleClaimPays(rt: Router, w: SwapBook.World, c: SwapBook.Claim, segments: seq<Segment>, outs: seq<int>)
    requires SettleClaim(rt, w, c, segments, outs).Ok?
    ensures |segments| <= |outs| && Total(segments) == c.amount
    ensures var w' := SettleClaim(rt, w, c, segments, outs).value;
            var net := SettledNet(rt, segments, outs);
            c.minOut <= net && w'.env == w.env && w'.book == Credited(w.book, c.id, net)
  {
    hide Bal, PayWithFee, Execute, CalculateFee;
    ExecuteMoves(Flow(w.bal, outs, 0), rt.self, rt.venues, c.tokenIn, c.tokenOut, segments);
  }

  /** It spends the whole claim and keeps nothing of the output. */
  lemma SettleClaimMoves(rt: Router, w: SwapBook.World, c: SwapBook.Claim, segments: seq<Segment>, outs: seq<int>,
                         t: Address, a: Address)
    requires SettleClaim(rt, w, c, segments, outs).Ok? && a !in rt.venues.Values
    ensures |segments| <= |outs|
    ensures Bal(SettleClaim(rt, w, c, segments, outs).value.bal, t, a)
            == Bal(w.bal, t, a) - At(c.tokenIn, rt.self, t, a, c.amount)
               + At(c.tokenOut, c.maker, t, a, SettledNet(rt, segments, outs))
               + At(c.tokenOut, rt.vault, t, a, SettledFee(rt, segments, outs))
  {
    hide Bal, PayWithFee, Execute, CalculateFee;
    var start := Flow(w.bal, outs, 0);
    ExecuteMoves(start, rt.self, rt.venues, c.tokenIn, c.tokenOut, segments);
    var f := Execute(start, rt.self, rt.venues, c.tokenIn, c.tokenOut, segments).value;
    PayWithFeeMoves(f.bal, c.tokenOut, rt.self, c.maker, rt.vault, SettledNet(rt, segments, outs),
                    SettledFee(rt, segments, outs));
  }

  /** Settling a timer closes the order as routed, and the maker's own price holds. */
  lemma RouteExpiredBook(rt: Router, w: SwapBook.World, id: nat, segments: seq<Segment>, outs: seq<int>)
    requires BookInvariant.Inv(w.book) && RouteExpired(rt, w, id, segments, outs).Ok?
    ensures var w' := RouteExpired(rt, w, id, segments, outs).value;
            && w'.env == w.env && id in w.book.orders && |segments| <= |outs|
            && var o := w.book.orders[id];
            && o.Live() && Total(segments) == o.remaining
            && o.autoRouteAfter < w.env.now <= o.expiry
            && BookCalls.NetCoversFloor(o, w.env, o.remaining, SettledNet(rt, segments, outs))
            && BookInvariant.Inv(w'.book) && BookCalls.OnlyOrder(w.book, w'.book, id)
            && (forall t :: BookInvariant.Escrow(w'.book, t)
                            == BookInvariant.Escrow(w.book, t) - if t == o.tokenIn then o.remaining else 0)
            && w'.book.orders[id] == o.(remaining := 0, status := SwapBook.Routed)
            && w'.book.Paid(id)
               == SwapBook.Receipt(w.book.Paid(id).net + SettledNet(rt, segments, outs), w.book.Paid(id).refunded)
  {
    hide SettleClaim, BookInvariant.Inv, BookInvariant.Escrow, BookCalls.NetCoversFloor, Bal;
    BookCalls.ClaimEffects(w, id);
    var (w1, c) := SwapBook.ClaimTimer(w, id).value;
    SettleClaimPays(rt, w1, c, segments, outs);
    SameBookSameInvariant(w1.book, RouteExpired(rt, w, id, segments, outs).value.book);
  }

  /** It hands the escrow to the venues and their output to the maker and the vault;
      the Router keeps nothing. */
  lemma RouteExpiredKeepsNothing(rt: Router, w: SwapBook.World, id: nat, segments: seq<Segment>, outs: seq<int>,
                                 t: Address, a: Address)
    requires BookInvariant.Inv(w.book) && RouteExpired(rt, w, id, segments, outs).Ok?
    requires a !in rt.venues.Values
    ensures id in w.book.orders && |segments| <= |outs|
    ensures var o := w.book.orders[id];
            Bal(RouteExpired(rt, w, id, segments, outs).value.bal, t, a)
            == Bal(w.bal, t, a) - At(o.tokenIn, w.book.self, t, a, o.remaining)
               + At(o.tokenOut, o.maker, t, a, SettledNet(rt, segments, outs))
               + At(o.tokenOut, rt.vault, t, a, SettledFee(rt, segments, outs))
  {
    hide SettleClaim, BookInvariant.Inv, BookInvariant.Surplus, BookCalls.NetCoversFloor, Bal, SwapBook.ClaimTimer;
    assert SwapBook.ClaimTimer(w, id).Ok?;
    BookCalls.ClaimEffects(w, id);
    var (w1, c) := SwapBook.ClaimTimer(w, id).value;
    SettleClaimMoves(rt, w1, c, segments, outs, t, a);
  }

  /** The invariant does not look at the payment history. */
  lemma SameBookSameInvariant(book: SwapBook.Book, book': SwapBook.Book)
    requires BookInvariant.Inv(book) && book' == book.(receipts := book'.receipts)
    ensures BookInvariant.Inv(book')
    ensures forall t :: BookInvariant.Escrow(book', t) == BookInvariant.Escrow(book, t)
  {
    assert forall market :: BookInvariant.Indexed(book, market) ==> BookInvariant.Indexed(book', market);
    assert forall slot :: BookInvariant.Counted(book, slot) ==> BookInvariant.Counted(book', slot);
  }
}
